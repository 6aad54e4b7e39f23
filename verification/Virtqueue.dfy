/**
The split virtqueue of kernel/virtio_disk.c (section 2.6 of VirtIO 1.1): requests, the device and the
interrupt handler as steps that interleave; the driver's steps are the stretches that hold vdisk_lock.
*/
module Virtqueue {
  import opened Options
  import opened Rings

  const NUM: nat := 8
  const WRAP: nat := 0x1_0000

  /** How far a request is: offered, with the device, reported by the device, seen by the interrupt handler. */
  datatype Stage = Offered | Working | Reported | Done

  /** A chain of three descriptors for buffer `b`; it is named after its first descriptor. */
  datatype Chain = Chain(i1: nat, i2: nat, b: nat, stage: Stage)

  /**
  more        VRING_DESC_F_NEXT
  info        info[].b
  busy        the buffers with b->disk == 1
  panicked    free_desc panicked, or the handler met an entry without a buffer
  chains      by first descriptor, the requests that are inside virtio_disk_rw
  `stage`, `owner` and the two queues are bookkeeping: what the rings and flags stand for.
  */
  datatype Disk = Disk(free: seq<bool>, next: seq<nat>, more: seq<bool>, info: seq<Option<nat>>, busy: set<nat>,
                       avail: seq<nat>, availIdx: nat, taken: nat, used: seq<nat>, usedIdx: nat, seen: nat,
                       panicked: bool,
                       chains: map<nat, Chain>, owner: seq<Option<nat>>, offers: seq<nat>, reports: seq<nat>)

  predicate Lengths(d: Disk)
  {
    && |d.free| == NUM && |d.next| == NUM && |d.more| == NUM && |d.info| == NUM
    && |d.avail| == NUM && |d.used| == NUM && |d.owner| == NUM
  }

  predicate InChain(h: nat, c: Chain, x: nat)
  {
    x == h || x == c.i1 || x == c.i2
  }

  /** Descriptor `h` heads a well-formed chain of three descriptors that are its own. */
  predicate ChainOk(d: Disk, h: nat)
    requires Lengths(d) && h in d.chains
  {
    var c := d.chains[h];
    && h < NUM && c.i1 < NUM && c.i2 < NUM && h != c.i1 && h != c.i2 && c.i1 != c.i2
    && d.more[h] && d.next[h] == c.i1 && d.more[c.i1] && d.next[c.i1] == c.i2 && !d.more[c.i2]
    && d.owner[h] == Some(h) && d.owner[c.i1] == Some(h) && d.owner[c.i2] == Some(h) && d.info[h] == Some(c.b)
  }

  /** A descriptor is free or belongs to one chain. */
  predicate DescOk(d: Disk, x: nat)
    requires Lengths(d) && x < NUM
  {
    && (d.free[x] <==> d.owner[x].None?)
    && (d.owner[x].Some? ==> d.owner[x].value in d.chains && InChain(d.owner[x].value, d.chains[d.owner[x].value], x))
  }

  /** Entries from index `lo` to index `hi`, both 16-bit counters, are `q`. */
  ghost predicate RingIs(ring: seq<nat>, lo: nat, hi: nat, q: seq<nat>)
  {
    && |ring| == NUM && lo < WRAP && |q| <= NUM && hi == (lo + |q|) % WRAP
    && forall k {:trigger q[k]} | 0 <= k < |q| :: ring[(lo + k) % NUM] == q[k]
  }

  /** `q` lists the chains at stage `st`. */
  ghost predicate QueueOk(d: Disk, q: seq<nat>, st: Stage)
  {
    && Distinct(q) && (forall k {:trigger q[k]} | 0 <= k < |q| :: q[k] in d.chains && d.chains[q[k]].stage == st)
    && forall h | h in d.chains && d.chains[h].stage == st :: h in q
  }

  /** Descriptors split into free ones and disjoint chains of three, one chain to a buffer. */
  ghost predicate ChainsOk(d: Disk)
  {
    && Lengths(d)
    && (forall h {:trigger ChainOk(d, h)} {:trigger h in d.chains} | h in d.chains :: ChainOk(d, h))
    && (forall x: nat {:trigger DescOk(d, x)} | x < NUM :: DescOk(d, x))
    && (forall h, h' {:trigger d.chains[h], d.chains[h']} | h in d.chains && h' in d.chains
          && d.chains[h].b == d.chains[h'].b :: h == h')
  }

  /** A buffer's flag is up exactly until the handler has seen the report of its request. */
  ghost predicate BusyOk(d: Disk)
  {
    forall h {:trigger d.chains[h]} | h in d.chains :: d.chains[h].b in d.busy <==> d.chains[h].stage != Done
  }

  ghost predicate Inv(d: Disk)
  {
    && ChainsOk(d) && BusyOk(d) && !d.panicked
    && RingIs(d.avail, d.taken, d.availIdx, d.offers) && QueueOk(d, d.offers, Offered)
    && RingIs(d.used, d.seen, d.usedIdx, d.reports) && QueueOk(d, d.reports, Reported)
  }

  // ---------------------------------------------------------------------------------------
  // Counters and rings
  // ---------------------------------------------------------------------------------------

  ghost function Members(q: seq<nat>): set<nat>
  {
    if q == [] then {} else {q[0]} + Members(q[1..])
  }

  lemma {:induction false} MembersAre(q: seq<nat>)
    requires Distinct(q)
    ensures |Members(q)| == |q| && forall x :: x in Members(q) <==> x in q
  {
    if q != [] {
      MembersAre(q[1..]);
      assert q[0] !in q[1..];
    }
  }

  lemma DistinctBound(q: seq<nat>, n: nat)
    requires Distinct(q) && forall k {:trigger q[k]} | 0 <= k < |q| :: q[k] < n
    ensures |q| <= n
  {
    MembersAre(q);
    Smaller(n, Members(q));
  }

  lemma {:induction false} Smaller(n: nat, s: set<nat>)
    requires forall x | x in s :: x < n
    ensures |s| <= n
  {
    if n > 0 {
      Smaller(n - 1, s - {n - 1});
    } else {
      assert s == {};
    }
  }

  /** Adding an entry overwrites none that is still unread. */
  lemma Push(ring: seq<nat>, lo: nat, hi: nat, q: seq<nat>, h: nat)
    requires RingIs(ring, lo, hi, q) && |q| < NUM
    ensures RingIs(ring[hi % NUM := h], lo, (hi + 1) % WRAP, q + [h])
  {
    WrapMod(NUM, 8192, lo + |q|);             // 8 divides 2^16
    var ring', q' := ring[hi % NUM := h], q + [h];
    forall k | 0 <= k < |q'|
      ensures ring'[(lo + k) % NUM] == q'[k]
    {
      if k < |q| {
        assert ring[(lo + k) % NUM] == q[k];
        SlotsDiffer(NUM, lo + k, lo + |q|);
      }
    }
  }

  lemma NextSlot(lo: nat, k: nat)
    requires lo < WRAP
    ensures ((lo + 1) % WRAP + k) % NUM == (lo + (k + 1)) % NUM
  {
    if lo + 1 == WRAP {
      Shift(NUM, k, 8192);
    }
  }

  lemma Pop(ring: seq<nat>, lo: nat, hi: nat, q: seq<nat>)
    requires RingIs(ring, lo, hi, q) && lo != hi
    ensures |q| > 0 && ring[lo % NUM] == q[0] && RingIs(ring, (lo + 1) % WRAP, hi, q[1..])
  {
    assert q != [] && ring[(lo + 0) % NUM] == q[0];
    forall k | 0 <= k < |q| - 1
      ensures ring[((lo + 1) % WRAP + k) % NUM] == q[1..][k]
    {
      assert ring[(lo + (k + 1)) % NUM] == q[k + 1];
      NextSlot(lo, k);
    }
  }

  /** The driver's test used_idx != used->idx is right across wrap-around. */
  lemma EmptyTest(ring: seq<nat>, lo: nat, hi: nat, q: seq<nat>)
    requires RingIs(ring, lo, hi, q)
    ensures lo == hi <==> q == []
  {
  }

  // ---------------------------------------------------------------------------------------
  // Steps
  // ---------------------------------------------------------------------------------------

  datatype Step =
    | Submit(b: nat, i0: nat, i1: nat, i2: nat)               // virtio_disk_rw up to its wait
    | DeviceTakes | DeviceReports(h: nat)
    | Interrupt                                               // one round of virtio_disk_intr's loop
    | Complete(h: nat)                                        // virtio_disk_rw after its wait

  /** alloc3_desc hands out distinct free descriptors; a buffer is locked, so it has one request at a time. */
  predicate CanSubmit(d: Disk, b: nat, i0: nat, i1: nat, i2: nat)
  {
    && Lengths(d) && i0 < NUM && i1 < NUM && i2 < NUM && i0 != i1 && i0 != i2 && i1 != i2
    && d.free[i0] && d.free[i1] && d.free[i2] && !d.panicked && forall h | h in d.chains :: d.chains[h].b != b
  }

  function DoSubmit(d: Disk, b: nat, i0: nat, i1: nat, i2: nat): Disk
    requires CanSubmit(d, b, i0, i1, i2)
  {
    d.(free := d.free[i0 := false][i1 := false][i2 := false],
       next := d.next[i0 := i1][i1 := i2][i2 := 0], more := d.more[i0 := true][i1 := true][i2 := false],
       info := d.info[i0 := Some(b)], busy := d.busy + {b},
       avail := d.avail[d.availIdx % NUM := i0], availIdx := (d.availIdx + 1) % WRAP,
       chains := d.chains[i0 := Chain(i1, i2, b, Offered)],
       owner := d.owner[i0 := Some(i0)][i1 := Some(i0)][i2 := Some(i0)], offers := d.offers + [i0])
  }

  /** The bookkeeping of a chain that gets to another stage. */
  function Mark(chains: map<nat, Chain>, h: nat, st: Stage): map<nat, Chain>
  {
    if h in chains then chains[h := chains[h].(stage := st)] else chains
  }

  function Tail(q: seq<nat>): seq<nat>
  {
    if q == [] then [] else q[1..]
  }

  /** The device's test for a new offer. */
  predicate CanDeviceTake(d: Disk)
  {
    Lengths(d) && d.taken != d.availIdx && !d.panicked
  }

  /** The device fetches the next offer. */
  function DoDeviceTake(d: Disk): Disk
    requires CanDeviceTake(d)
  {
    var h := d.avail[d.taken % NUM];
    d.(taken := (d.taken + 1) % WRAP, offers := Tail(d.offers), chains := Mark(d.chains, h, Working))
  }

  /** The device finishes a request that it took, in any order, and reports it in the used ring. */
  predicate CanDeviceReport(d: Disk, h: nat)
  {
    Lengths(d) && h in d.chains && d.chains[h].stage == Working && !d.panicked
  }

  function DoDeviceReport(d: Disk, h: nat): Disk
    requires CanDeviceReport(d, h)
  {
    d.(used := d.used[d.usedIdx % NUM := h], usedIdx := (d.usedIdx + 1) % WRAP, reports := d.reports + [h],
       chains := Mark(d.chains, h, Reported))
  }

  /** The handler's loop test. */
  predicate CanInterrupt(d: Disk)
  {
    Lengths(d) && d.seen != d.usedIdx && !d.panicked
  }

  /** The flag of the buffer that info has for the next used entry goes down. */
  function DoInterrupt(d: Disk): Disk
    requires CanInterrupt(d)
  {
    var h := d.used[d.seen % NUM];
    if h >= NUM || d.info[h].None? then d.(panicked := true)
    else
      d.(seen := (d.seen + 1) % WRAP, busy := d.busy - {d.info[h].value},
         reports := Tail(d.reports), chains := Mark(d.chains, h, Done))
  }

  /** The test that ends the wait in virtio_disk_rw, by the flag alone. */
  predicate CanComplete(d: Disk, h: nat)
  {
    Lengths(d) && h in d.chains && d.chains[h].b !in d.busy && !d.panicked
  }

  datatype Descs = Descs(free: seq<bool>, next: seq<nat>, more: seq<bool>)

  predicate DescLengths(v: Descs)
  {
    |v.free| == NUM && |v.next| == NUM && |v.more| == NUM
  }

  function Held(free: seq<bool>): set<nat>
  {
    set x: nat | x < |free| && !free[x]
  }

  lemma HeldLess(free: seq<bool>, i: nat)
    requires i < |free| && !free[i]
    ensures |Held(free[i := true])| < |Held(free)|
  {
    assert Held(free[i := true]) == Held(free) - {i};
  }

  /** free_chain from descriptor `i`: it follows the links; None is one of free_desc's panics. */
  function FreeList(v: Descs, i: nat): (r: Option<Descs>)
    requires DescLengths(v)
    ensures r.Some? ==> DescLengths(r.value)
    decreases |Held(v.free)|
  {
    if i >= NUM || v.free[i] then None
    else
      HeldLess(v.free, i);
      var v' := Descs(v.free[i := true], v.next[i := 0], v.more[i := false]);
      if v.more[i] then FreeList(v', v.next[i]) else Some(v')
  }

  function DoComplete(d: Disk, h: nat): Disk
    requires CanComplete(d, h)
  {
    var r := FreeList(Descs(d.free, d.next, d.more), h);
    if h >= NUM || r.None? then d.(panicked := true)
    else
      d.(free := r.value.free, next := r.value.next, more := r.value.more, info := d.info[h := None],
         chains := d.chains - {h}, owner := Disown(d.owner, h))
  }

  function Disown(owner: seq<Option<nat>>, h: nat): seq<Option<nat>>
  {
    seq(|owner|, x requires 0 <= x < |owner| => if owner[x] == Some(h) then None else owner[x])
  }

  /** On a chain of three allocated descriptors free_chain frees these three. */
  lemma FreesThree(v: Descs, h: nat, i1: nat, i2: nat)
    requires DescLengths(v) && h < NUM && i1 < NUM && i2 < NUM && h != i1 && h != i2 && i1 != i2
    requires v.more[h] && v.next[h] == i1 && v.more[i1] && v.next[i1] == i2 && !v.more[i2]
    requires !v.free[h] && !v.free[i1] && !v.free[i2]
    ensures FreeList(v, h) == Some(Descs(v.free[h := true][i1 := true][i2 := true],
              v.next[h := 0][i1 := 0][i2 := 0], v.more[h := false][i1 := false][i2 := false]))
  {
    var v1 := Descs(v.free[h := true], v.next[h := 0], v.more[h := false]);
    var v2 := Descs(v1.free[i1 := true], v1.next[i1 := 0], v1.more[i1 := false]);
    assert FreeList(v2, i2) == Some(Descs(v2.free[i2 := true], v2.next[i2 := 0], v2.more[i2 := false]));
    assert FreeList(v1, i1) == FreeList(v2, i2);
    assert FreeList(v, h) == FreeList(v1, i1);
  }

  // ---- chains ----

  /** Chains that are there do not touch free descriptors. */
  lemma FreeNotInChain(d: Disk, h: nat, x: nat)
    requires ChainsOk(d) && h in d.chains && x < NUM && d.free[x]
    ensures !InChain(h, d.chains[h], x)
  {
    assert ChainOk(d, h) && DescOk(d, x);
  }

  lemma SubmitChains(d: Disk, b: nat, i0: nat, i1: nat, i2: nat)
    requires ChainsOk(d) && CanSubmit(d, b, i0, i1, i2)
    ensures ChainsOk(DoSubmit(d, b, i0, i1, i2)) && i0 !in d.chains
  {
    hide ChainOk, DescOk;
    var d' := DoSubmit(d, b, i0, i1, i2);
    if i0 in d.chains {
      FreeNotInChain(d, i0, i0);
    }
    forall h | h in d'.chains
      ensures ChainOk(d', h)
    {
      SubmitChain(d, b, i0, i1, i2, h);
    }
    forall x: nat | x < NUM
      ensures DescOk(d', x)
    {
      SubmitDesc(d, b, i0, i1, i2, x);
    }
  }

  lemma SubmitChain(d: Disk, b: nat, i0: nat, i1: nat, i2: nat, h: nat)
    requires ChainsOk(d) && CanSubmit(d, b, i0, i1, i2) && h in DoSubmit(d, b, i0, i1, i2).chains
    ensures ChainOk(DoSubmit(d, b, i0, i1, i2), h)
  {
    hide DescOk;
    if h != i0 {
      FreeNotInChain(d, h, i0);
      FreeNotInChain(d, h, i1);
      FreeNotInChain(d, h, i2);
      assert ChainOk(d, h);
    }
  }

  lemma SubmitDesc(d: Disk, b: nat, i0: nat, i1: nat, i2: nat, x: nat)
    requires ChainsOk(d) && CanSubmit(d, b, i0, i1, i2) && x < NUM
    ensures DescOk(DoSubmit(d, b, i0, i1, i2), x)
  {
    hide ChainOk;
    assert DescOk(d, x);
    if d.owner[x].Some? && d.owner[x].value == i0 {
      FreeNotInChain(d, i0, i0);
    }
  }

  /** No panic at the end of a request: its chain is three allocated descriptors, and these are freed. */
  lemma CompleteIs(d: Disk, h: nat)
    requires ChainsOk(d) && CanComplete(d, h)
    ensures ChainOk(d, h) && DoComplete(d, h) == Completed(d, h)
  {
    var c := d.chains[h];
    assert ChainOk(d, h);
    assert DescOk(d, h) && DescOk(d, c.i1) && DescOk(d, c.i2);
    FreesThree(Descs(d.free, d.next, d.more), h, c.i1, c.i2);
  }

  function Completed(d: Disk, h: nat): Disk
    requires Lengths(d) && h in d.chains && ChainOk(d, h)
  {
    var c := d.chains[h];
    d.(free := d.free[h := true][c.i1 := true][c.i2 := true],
       next := d.next[h := 0][c.i1 := 0][c.i2 := 0], more := d.more[h := false][c.i1 := false][c.i2 := false],
       info := d.info[h := None], chains := d.chains - {h}, owner := Disown(d.owner, h))
  }

  lemma CompleteChains(d: Disk, h: nat)
    requires ChainsOk(d) && h in d.chains && ChainOk(d, h)
    ensures ChainsOk(Completed(d, h))
  {
    var d' := Completed(d, h);
    assert Lengths(d');
    hide ChainOk, DescOk;
    forall g | g in d'.chains
      ensures ChainOk(d', g)
    {
      CompleteChain(d, h, g);
    }
    forall x: nat | x < NUM
      ensures DescOk(d', x)
    {
      CompleteDesc(d, h, x);
    }
  }

  lemma CompleteChain(d: Disk, h: nat, g: nat)
    requires ChainsOk(d) && h in d.chains && ChainOk(d, h) && g in d.chains && g != h
    ensures ChainOk(Completed(d, h), g)
  {
    hide DescOk;
    assert ChainOk(d, g);
  }

  lemma CompleteDesc(d: Disk, h: nat, x: nat)
    requires ChainsOk(d) && h in d.chains && ChainOk(d, h) && x < NUM
    ensures DescOk(Completed(d, h), x)
  {
    assert DescOk(d, x);
    hide ChainsOk;
  }

  /** Moving one chain to another stage. */
  lemma StageChains(d: Disk, d': Disk, h: nat, st: Stage)
    requires ChainsOk(d) && h in d.chains && d'.chains == d.chains[h := d.chains[h].(stage := st)] && Lengths(d')
    requires d'.free == d.free && d'.next == d.next && d'.more == d.more && d'.info == d.info && d'.owner == d.owner
    ensures ChainsOk(d')
  {
    forall g | g in d'.chains
      ensures ChainOk(d', g)
    {
      assert ChainOk(d, g);
    }
    forall x: nat | x < NUM
      ensures DescOk(d', x)
    {
      assert DescOk(d, x);
    }
  }

  // ---- queues ----

  /** A chain leaves the front of the queue of its stage. */
  lemma QueuePop(d: Disk, d': Disk, q: seq<nat>, st: Stage, st': Stage)
    requires QueueOk(d, q, st) && q != [] && st' != st && q[0] in d.chains
    requires d'.chains == d.chains[q[0] := d.chains[q[0]].(stage := st')]
    ensures QueueOk(d', q[1..], st)
  {
    assert forall h :: h in q <==> h == q[0] || h in q[1..];
    assert q[0] !in q[1..];
  }

  lemma QueuePush(d: Disk, d': Disk, q: seq<nat>, st: Stage, h: nat)
    requires QueueOk(d, q, st) && h !in q && h in d'.chains && d'.chains[h].stage == st
    requires forall g :: g != h ==>
                 (g in d'.chains <==> g in d.chains)
                 && (g in d.chains ==> d'.chains[g] == d.chains[g])
    ensures QueueOk(d', q + [h], st)
  {
  }

  /** Queues do not see chains that were and are at other stages. */
  lemma QueueKept(d: Disk, d': Disk, q: seq<nat>, st: Stage, h: nat)
    requires QueueOk(d, q, st) && (h in d.chains ==> d.chains[h].stage != st)
             && (h in d'.chains ==> d'.chains[h].stage != st)
    requires forall g :: g != h ==>
                 (g in d'.chains <==> g in d.chains)
                 && (g in d.chains ==> d'.chains[g] == d.chains[g])
    ensures QueueOk(d', q, st)
  {
  }

  lemma QueueBound(d: Disk, q: seq<nat>, st: Stage, h: nat)
    requires ChainsOk(d) && QueueOk(d, q, st) && h !in q && h < NUM
    ensures |q| < NUM
  {
    var q' := q + [h];
    forall k | 0 <= k < |q'|
      ensures q'[k] < NUM
    {
      if k < |q| {
        assert ChainOk(d, q[k]);
      }
    }
    DistinctBound(q', NUM);
  }

  // ---- the steps keep the invariant ----

  lemma SubmitBusy(d: Disk, b: nat, i0: nat, i1: nat, i2: nat)
    requires BusyOk(d) && CanSubmit(d, b, i0, i1, i2)
    ensures BusyOk(DoSubmit(d, b, i0, i1, i2))
  {
  }

  /** Stages before the last one leave the flags alone. */
  lemma StageBusy(d: Disk, d': Disk, h: nat, st: Stage)
    requires BusyOk(d) && h in d.chains && d.chains[h].stage != Done && st != Done
    requires d'.chains == d.chains[h := d.chains[h].(stage := st)] && d'.busy == d.busy
    ensures BusyOk(d')
  {
  }

  /** The handler puts down the flag of its own request, and of no other. */
  lemma DoneBusy(d: Disk, d': Disk, h: nat)
    requires BusyOk(d) && ChainsOk(d) && h in d.chains
    requires d'.chains == d.chains[h := d.chains[h].(stage := Done)] && d'.busy == d.busy - {d.chains[h].b}
    ensures BusyOk(d')
  {
  }

  lemma KeepsSubmit(d: Disk, b: nat, i0: nat, i1: nat, i2: nat)
    requires Inv(d) && CanSubmit(d, b, i0, i1, i2)
    ensures Inv(DoSubmit(d, b, i0, i1, i2))
  {
    hide ChainsOk, RingIs, QueueOk, BusyOk;
    var d' := DoSubmit(d, b, i0, i1, i2);
    SubmitChains(d, b, i0, i1, i2);
    SubmitBusy(d, b, i0, i1, i2);
    NotQueued(d, d.offers, Offered, i0);
    QueueBound(d, d.offers, Offered, i0);
    Push(d.avail, d.taken, d.availIdx, d.offers, i0);
    QueuePush(d, d', d.offers, Offered, i0);
    QueueKept(d, d', d.reports, Reported, i0);
  }

  lemma NotQueued(d: Disk, q: seq<nat>, st: Stage, h: nat)
    requires QueueOk(d, q, st) && (h in d.chains ==> d.chains[h].stage != st)
    ensures h !in q
  {
  }

  lemma FrontStage(d: Disk, q: seq<nat>, st: Stage)
    requires QueueOk(d, q, st) && q != []
    ensures q[0] in d.chains && d.chains[q[0]].stage == st
  {
  }

  lemma ChainHead(d: Disk, h: nat)
    requires ChainsOk(d) && h in d.chains
    ensures Lengths(d) && h < NUM && d.info[h] == Some(d.chains[h].b)
  {
    assert ChainOk(d, h);
  }

  lemma KeepsDeviceTake(d: Disk)
    requires Inv(d) && CanDeviceTake(d)
    ensures Inv(DoDeviceTake(d))
    ensures d.avail[d.taken % NUM] in d.chains && d.chains[d.avail[d.taken % NUM]].stage == Offered
  {
    hide ChainsOk, RingIs, QueueOk, BusyOk;
    Pop(d.avail, d.taken, d.availIdx, d.offers);
    FrontStage(d, d.offers, Offered);
    var h, d' := d.offers[0], DoDeviceTake(d);
    StageChains(d, d', h, Working);
    StageBusy(d, d', h, Working);
    QueuePop(d, d', d.offers, Offered, Working);
    QueueKept(d, d', d.reports, Reported, h);
  }

  lemma KeepsDeviceReport(d: Disk, h: nat)
    requires Inv(d) && CanDeviceReport(d, h)
    ensures Inv(DoDeviceReport(d, h))
  {
    hide ChainsOk, RingIs, QueueOk, BusyOk;
    ChainHead(d, h);
    var d' := DoDeviceReport(d, h);
    StageChains(d, d', h, Reported);
    StageBusy(d, d', h, Reported);
    NotQueued(d, d.reports, Reported, h);
    QueueBound(d, d.reports, Reported, h);
    Push(d.used, d.seen, d.usedIdx, d.reports, h);
    QueuePush(d, d', d.reports, Reported, h);
    QueueKept(d, d', d.offers, Offered, h);
  }

  lemma KeepsInterrupt(d: Disk)
    requires Inv(d) && CanInterrupt(d)
    ensures Inv(DoInterrupt(d))
    ensures var h := d.used[d.seen % NUM];
            h < NUM && h in d.chains && d.chains[h].stage == Reported && d.info[h] == Some(d.chains[h].b)
  {
    hide ChainsOk, RingIs, QueueOk, BusyOk;
    Pop(d.used, d.seen, d.usedIdx, d.reports);
    FrontStage(d, d.reports, Reported);
    ChainHead(d, d.reports[0]);
    var h, d' := d.reports[0], DoInterrupt(d);
    DoneBusy(d, d', h);
    StageChains(d, d', h, Done);
    QueuePop(d, d', d.reports, Reported, Done);
    QueueKept(d, d', d.offers, Offered, h);
  }

  lemma KeepsComplete(d: Disk, h: nat)
    requires Inv(d) && CanComplete(d, h)
    ensures Inv(DoComplete(d, h)) && d.chains[h].stage == Done
  {
    assert d.chains[h].stage == Done;
    hide ChainsOk, RingIs, QueueOk;
    CompleteIs(d, h);
    CompleteChains(d, h);
    var d' := Completed(d, h);
    QueueKept(d, d', d.offers, Offered, h);
    QueueKept(d, d', d.reports, Reported, h);
  }

  // ---------------------------------------------------------------------------------------
  // Runs
  // ---------------------------------------------------------------------------------------

  predicate Enabled(d: Disk, a: Step)
  {
    match a
    case Submit(b, i0, i1, i2) => CanSubmit(d, b, i0, i1, i2)
    case DeviceTakes => CanDeviceTake(d)
    case DeviceReports(h) => CanDeviceReport(d, h)
    case Interrupt => CanInterrupt(d)
    case Complete(h) => CanComplete(d, h)
  }

  function Apply(d: Disk, a: Step): Disk
    requires Enabled(d, a)
  {
    match a
    case Submit(b, i0, i1, i2) => DoSubmit(d, b, i0, i1, i2)
    case DeviceTakes => DoDeviceTake(d)
    case DeviceReports(h) => DoDeviceReport(d, h)
    case Interrupt => DoInterrupt(d)
    case Complete(h) => DoComplete(d, h)
  }

  lemma StepKeepsInv(d: Disk, a: Step)
    requires Inv(d) && Enabled(d, a)
    ensures Inv(Apply(d, a))
  {
    hide Inv;
    match a {
      case Submit(b, i0, i1, i2) => KeepsSubmit(d, b, i0, i1, i2);
      case DeviceTakes => KeepsDeviceTake(d);
      case DeviceReports(h) => KeepsDeviceReport(d, h);
      case Interrupt => KeepsInterrupt(d);
      case Complete(h) => KeepsComplete(d, h);
    }
  }

  ghost predicate Reaches(d: Disk, run: seq<Step>, d': Disk)
    decreases |run|
  {
    if run == [] then d' == d else Enabled(d, run[0]) && Reaches(Apply(d, run[0]), run[1..], d')
  }

  lemma {:induction false} RunKeepsInv(d: Disk, run: seq<Step>, d': Disk)
    requires Inv(d) && Reaches(d, run, d')
    ensures Inv(d')
    decreases |run|
  {
    hide Inv, Enabled, Apply;
    if run != [] {
      StepKeepsInv(d, run[0]);
      RunKeepsInv(Apply(d, run[0]), run[1..], d');
    }
  }

  /** virtio_disk_init: all descriptors free, both rings empty, the counters anywhere. */
  ghost predicate Initial(d: Disk)
  {
    && Lengths(d) && (forall x: nat | x < NUM :: d.free[x] && d.owner[x].None?) && d.chains == map[]
    && d.taken == d.availIdx < WRAP && d.seen == d.usedIdx < WRAP && d.offers == [] && d.reports == [] && !d.panicked
  }

  lemma InitialInv(d: Disk)
    requires Initial(d)
    ensures Inv(d)
  {
    forall x: nat | x < NUM
      ensures DescOk(d, x)
    {
    }
  }

  /** In every run each descriptor is free or in exactly one three-descriptor chain, with one buffer per chain. */
  lemma DescriptorsPartition(d: Disk, run: seq<Step>, d': Disk, x: nat)
    requires Initial(d) && Reaches(d, run, d') && x < NUM
    ensures Lengths(d') && (d'.free[x] <==> forall h | h in d'.chains :: !InChain(h, d'.chains[h], x))
    ensures forall h, h' | h in d'.chains && h' in d'.chains && InChain(h, d'.chains[h], x)
              && InChain(h', d'.chains[h'], x) :: h == h'
    ensures forall h, h' | h in d'.chains && h' in d'.chains && d'.chains[h].b == d'.chains[h'].b :: h == h'
  {
    InitialInv(d);
    RunKeepsInv(d, run, d');
    assert DescOk(d', x);
    forall h | h in d'.chains && InChain(h, d'.chains[h], x)
      ensures d'.owner[x] == Some(h)
    {
      assert ChainOk(d', h);
    }
  }

  // ---- what the run did before ----

  /** Step `a` offers the chain at `h`. */
  predicate Submits(a: Step, h: nat)
  {
    a.Submit? && a.i0 == h
  }

  /** The buffer of the last request submitted with first descriptor `h`. */
  function LastBuffer(run: seq<Step>, h: nat): Option<nat>
  {
    if run == [] then None
    else
      var a := run[|run| - 1];
      if Submits(a, h) then Some(a.b) else LastBuffer(run[..|run| - 1], h)
  }

  /** The device reported `h` since that request was submitted. */
  predicate ReportedSince(run: seq<Step>, h: nat)
  {
    run != [] &&
    var a := run[|run| - 1];
    (a == DeviceReports(h) || (!Submits(a, h) && ReportedSince(run[..|run| - 1], h)))
  }

  /** Read off the run: a submission for buffer `b`, and after it a report, with no other submission since. */
  ghost predicate SubmittedThenReported(run: seq<Step>, h: nat, b: nat)
  {
    exists i, j :: 0 <= i < j < |run| && Submits(run[i], h) && run[i].b == b && run[j] == DeviceReports(h)
                   && forall k | i < k < |run| :: !Submits(run[k], h)
  }

  lemma {:induction false} LastBufferIs(run: seq<Step>, h: nat) returns (i: nat)
    requires LastBuffer(run, h).Some?
    ensures i < |run| && Submits(run[i], h) && run[i].b == LastBuffer(run, h).value
    ensures forall k | i < k < |run| :: !Submits(run[k], h)
    ensures ReportedSince(run, h) ==> exists j :: i < j < |run| && run[j] == DeviceReports(h)
  {
    var n := |run| - 1;
    if Submits(run[n], h) {
      i := n;
    } else {
      i := LastBufferIs(run[..n], h);
      if ReportedSince(run[..n], h) {
        var j :| i < j < n && run[..n][j] == DeviceReports(h);
        assert run[j] == DeviceReports(h);
      }
    }
  }

  /** The stages keep in step with the run so far. */
  ghost predicate History(run: seq<Step>, d: Disk)
  {
    forall h {:trigger d.chains[h]} | h in d.chains ::
      && LastBuffer(run, h) == Some(d.chains[h].b)
      && (Told(d.chains[h]) ==> ReportedSince(run, h))
  }

  predicate Told(c: Chain)
  {
    c.stage == Reported || c.stage == Done
  }

  /** What a step may do to the chain at `h`: make it, or move it on, to a reported stage only with a report. */
  predicate Follows(d: Disk, a: Step, d': Disk, h: nat)
    requires h in d'.chains
  {
    if Submits(a, h) then d'.chains[h].b == a.b && d'.chains[h].stage == Offered
    else
      h in d.chains && d'.chains[h].b == d.chains[h].b
          && (Told(d'.chains[h]) ==> Told(d.chains[h]) || a == DeviceReports(h))
  }

  lemma StepFollows(d: Disk, a: Step, h: nat)
    requires Inv(d) && Enabled(d, a) && h in Apply(d, a).chains
    ensures Follows(d, a, Apply(d, a), h)
  {
    hide Inv, ChainOk, FreeList, DoComplete;
    if a.Interrupt? {
      KeepsInterrupt(d);
    } else if a.Complete? {
      ChainAllocated(d, a.h);
    } else if a.DeviceTakes? {
      KeepsDeviceTake(d);
    }
  }

  lemma StepHistory(run: seq<Step>, d: Disk, a: Step)
    requires Inv(d) && Enabled(d, a) && History(run, d)
    ensures History(run + [a], Apply(d, a))
  {
    hide Inv, Enabled, Apply;
    var d' := Apply(d, a);
    assert (run + [a])[..|run|] == run;
    forall h | h in d'.chains
      ensures LastBuffer(run + [a], h) == Some(d'.chains[h].b)
      ensures Told(d'.chains[h]) ==> ReportedSince(run + [a], h)
    {
      StepFollows(d, a, h);
    }
  }

  lemma {:induction false} RunHistory(before: seq<Step>, d: Disk, run: seq<Step>, d': Disk)
    requires Inv(d) && History(before, d) && Reaches(d, run, d')
    ensures Inv(d') && History(before + run, d')
    decreases |run|
  {
    hide Inv, Enabled, Apply, History;
    if run == [] {
      assert before + run == before;
    } else {
      StepKeepsInv(d, run[0]);
      StepHistory(before, d, run[0]);
      RunHistory(before + [run[0]], Apply(d, run[0]), run[1..], d');
      assert before + [run[0]] + run[1..] == before + run;
    }
  }

  /** What does panic: a report for a descriptor without a buffer, and freeing a descriptor that is free. */
  lemma PanicsExactly(d: Disk, h: nat)
    ensures CanInterrupt(d) ==>
              (DoInterrupt(d).panicked <==> d.used[d.seen % NUM] >= NUM || d.info[d.used[d.seen % NUM]].None?)
    ensures CanComplete(d, h) && h < NUM ==>
              (DoComplete(d, h).panicked
               <==> d.free[h] || (d.more[h] && FreeList(Descs(d.free[h := true], d.next[h := 0], d.more[h := false]),
                                                        d.next[h]).None?))
  {
    if CanComplete(d, h) && h < NUM && !d.free[h] {
      var v, v' := Descs(d.free, d.next, d.more), Descs(d.free[h := true], d.next[h := 0], d.more[h := false]);
      assert FreeList(v, h) == if v.more[h] then FreeList(v', v.next[h]) else Some(v');
    }
  }

  /**
  In every run neither free_desc nor the handler panics, and a buffer's flag is down exactly when its request
  is done.
  */
  lemma NeverPanics(d: Disk, run: seq<Step>, d': Disk)
    requires Initial(d) && Reaches(d, run, d')
    ensures !d'.panicked
    ensures forall h | h in d'.chains :: d'.chains[h].b in d'.busy <==> d'.chains[h].stage != Done
  {
    hide ChainsOk, RingIs, QueueOk;
    InitialInv(d);
    RunKeepsInv(d, run, d');
  }

  /**
  In every run virtio_disk_rw gets past its wait, which tests the buffer's flag only, after the device
  reported this very request; the free_chain that follows meets no panic and frees its three descriptors.
  */
  lemma CompletesAfterDevice(d: Disk, run: seq<Step>, d': Disk, h: nat)
    requires Initial(d) && Reaches(d, run, d') && CanComplete(d', h)
    ensures SubmittedThenReported(run, h, d'.chains[h].b)
    ensures ChainOk(d', h) && DoComplete(d', h) == Completed(d', h)
    ensures !d'.free[h] && !d'.free[d'.chains[h].i1] && !d'.free[d'.chains[h].i2]
  {
    hide Reaches, Inv;
    InitialInv(d);
    RunHistory([], d, run, d');
    assert [] + run == run;
    KeepsComplete(d', h);
    ChainAllocated(d', h);
    hide ChainsOk, DoComplete, Completed, ChainOk, Initial;
    var i := LastBufferIs(run, h);
    var j :| i < j < |run| && run[j] == DeviceReports(h);
  }

  lemma ChainAllocated(d: Disk, h: nat)
    requires Inv(d) && CanComplete(d, h)
    ensures ChainOk(d, h) && DoComplete(d, h) == Completed(d, h)
    ensures !d.free[h] && !d.free[d.chains[h].i1] && !d.free[d.chains[h].i2]
  {
    CompleteIs(d, h);
    assert DescOk(d, h) && DescOk(d, d.chains[h].i1) && DescOk(d, d.chains[h].i2);
  }

  /**
  In every run neither ring has more unread entries than slots: the device never overwrites a report nobody
  has seen.
  */
  lemma NoReportLost(d: Disk, run: seq<Step>, d': Disk, h: nat)
    requires Initial(d) && Reaches(d, run, d') && CanDeviceReport(d', h)
    ensures |d'.reports| < NUM && RingIs(d'.used, d'.seen, d'.usedIdx, d'.reports)
    ensures var e := DoDeviceReport(d', h); RingIs(e.used, e.seen, e.usedIdx, d'.reports + [h])
  {
    hide ChainsOk, QueueOk, RingIs, Initial, Reaches;
    InitialInv(d);
    RunKeepsInv(d, run, d');
    ChainHead(d', h);
    NotQueued(d', d'.reports, Reported, h);
    QueueBound(d', d'.reports, Reported, h);
    Push(d'.used, d'.seen, d'.usedIdx, d'.reports, h);
  }

  /**
  The device's and the handler's test for a new entry is right across wrap-around: in every run, whenever
  the counters differ there is one, the oldest, and it names a request that waits for just that.
  */
  lemma CounterTests(d: Disk, run: seq<Step>, d': Disk)
    requires Initial(d) && Reaches(d, run, d')
    ensures Lengths(d') && (d'.taken != d'.availIdx <==> d'.offers != [])
            && (d'.seen != d'.usedIdx <==> d'.reports != [])
    ensures d'.taken != d'.availIdx ==>
              var h := d'.avail[d'.taken % NUM]; h == d'.offers[0] && h in d'.chains && d'.chains[h].stage == Offered
    ensures d'.seen != d'.usedIdx ==>
              var h := d'.used[d'.seen % NUM]; h == d'.reports[0] && h in d'.chains && d'.chains[h].stage == Reported
  {
    InitialInv(d);
    RunKeepsInv(d, run, d');
    hide ChainOk, DescOk, Reaches;
    EmptyTest(d'.avail, d'.taken, d'.availIdx, d'.offers);
    EmptyTest(d'.used, d'.seen, d'.usedIdx, d'.reports);
    if d'.taken != d'.availIdx {
      Pop(d'.avail, d'.taken, d'.availIdx, d'.offers);
      FrontStage(d', d'.offers, Offered);
    }
    if d'.seen != d'.usedIdx {
      Pop(d'.used, d'.seen, d'.usedIdx, d'.reports);
      FrontStage(d', d'.reports, Reported);
    }
  }

  // ---- one request ----

  /** An offer into an empty ring is what the device takes next. */
  lemma RequestTaken(d: Disk, b: nat, i0: nat, i1: nat, i2: nat)
    requires RingIs(d.avail, d.taken, d.availIdx, []) && d.offers == [] && CanSubmit(d, b, i0, i1, i2)
    ensures var d1 := DoSubmit(d, b, i0, i1, i2);
            CanDeviceTake(d1) && d1.avail[d1.taken % NUM] == i0
            && DoDeviceTake(d1) == d1.(taken := (d.taken + 1) % WRAP, offers := [],
                                       chains := d.chains[i0 := Chain(i1, i2, b, Working)])
  {
    var d1 := DoSubmit(d, b, i0, i1, i2);
    assert d1.offers == [i0];
    assert d.chains[i0 := Chain(i1, i2, b, Offered)][i0 := Chain(i1, i2, b, Working)]
        == d.chains[i0 := Chain(i1, i2, b, Working)];
  }

  /** And its report into an empty ring what the handler sees next. */
  lemma RequestReported(d: Disk, c: map<nat, Chain>, b: nat, i0: nat, i1: nat, i2: nat)
    requires RingIs(d.used, d.seen, d.usedIdx, []) && d.reports == [] && Lengths(d) && !d.panicked
    requires d.chains == c[i0 := Chain(i1, i2, b, Working)]
    ensures CanDeviceReport(d, i0)
            && var d3 := DoDeviceReport(d, i0);
               CanInterrupt(d3) && d3.used[d3.seen % NUM] == i0
               && d3 == d.(used := d3.used, usedIdx := (d.usedIdx + 1) % WRAP, reports := [i0],
                           chains := c[i0 := Chain(i1, i2, b, Reported)])
  {
    assert c[i0 := Chain(i1, i2, b, Working)][i0 := Chain(i1, i2, b, Reported)]
        == c[i0 := Chain(i1, i2, b, Reported)];
    assert d.reports + [i0] == [i0];
  }

  lemma InvRings(d: Disk)
    requires Inv(d)
    ensures RingIs(d.avail, d.taken, d.availIdx, d.offers) && RingIs(d.used, d.seen, d.usedIdx, d.reports)
    ensures Lengths(d) && !d.panicked
  {
  }

  /** The handler takes the flag down. */
  lemma RequestFlagged(d: Disk, b: nat, i0: nat, i1: nat, i2: nat, d3: Disk)
    requires CanSubmit(d, b, i0, i1, i2) && CanInterrupt(d3) && d3.used[d3.seen % NUM] == i0
    requires d3.reports == [i0] && d3.chains == d.chains[i0 := Chain(i1, i2, b, Reported)]
    requires d3.info == d.info[i0 := Some(b)] && d3.busy == d.busy + {b}
    ensures var d4 := DoInterrupt(d3);
            CanComplete(d4, i0)
            && d4 == d3.(seen := (d3.seen + 1) % WRAP, reports := [], busy := d.busy - {b},
                         chains := d.chains[i0 := Chain(i1, i2, b, Done)])
  {
    assert d.chains[i0 := Chain(i1, i2, b, Reported)][i0 := Chain(i1, i2, b, Done)]
        == d.chains[i0 := Chain(i1, i2, b, Done)];
    assert d.busy + {b} - {b} == d.busy - {b};
  }

  /** The descriptor tables right after Submit. */
  predicate Submitted(d: Disk, b: nat, i0: nat, i1: nat, i2: nat, d': Disk)
    requires Lengths(d) && i0 < NUM && i1 < NUM && i2 < NUM
  {
    && d'.free == d.free[i0 := false][i1 := false][i2 := false] && d'.next == d.next[i0 := i1][i1 := i2][i2 := 0]
    && d'.more == d.more[i0 := true][i1 := true][i2 := false] && d'.info == d.info[i0 := Some(b)]
    && d'.owner == d.owner[i0 := Some(i0)][i1 := Some(i0)][i2 := Some(i0)]
  }

  /** The same tables once the chain is freed. */
  predicate Returned(d: Disk, i0: nat, i1: nat, i2: nat, d': Disk)
    requires Lengths(d) && i0 < NUM && i1 < NUM && i2 < NUM
  {
    && d'.free == d.free && d'.owner == d.owner && d'.info == d.info[i0 := None]
    && d'.next == d.next[i0 := 0][i1 := 0][i2 := 0] && d'.more == d.more[i0 := false][i1 := false][i2 := false]
  }

  lemma TablesReturned(d: Disk, b: nat, i0: nat, i1: nat, i2: nat, d4: Disk)
    requires Lengths(d) && i0 < NUM && i1 < NUM && i2 < NUM && d.free[i0] && d.free[i1] && d.free[i2]
    requires Submitted(d, b, i0, i1, i2, d4) && Disown(d4.owner, i0) == d.owner
    requires Lengths(d4) && i0 in d4.chains && ChainOk(d4, i0) && d4.chains[i0].i1 == i1 && d4.chains[i0].i2 == i2
    ensures Returned(d, i0, i1, i2, Completed(d4, i0))
  {
    hide ChainOk, Disown;
    Freed3(d.free, i0, i1, i2);
    Again3(d.next, i0, i1, i2, i1, i2, 0, 0);
    Again3(d.more, i0, i1, i2, true, true, false, false);
    assert d.info[i0 := Some(b)][i0 := None] == d.info[i0 := None];
  }

  lemma SubmitFacts(d: Disk, b: nat, i0: nat, i1: nat, i2: nat)
    requires ChainsOk(d) && CanSubmit(d, b, i0, i1, i2)
    ensures Lengths(d) && i0 < NUM && i1 < NUM && i2 < NUM && d.free[i0] && d.free[i1] && d.free[i2] && i0 !in d.chains
  {
    SubmitChains(d, b, i0, i1, i2);
  }

  lemma SubmittedOwners(d: Disk, b: nat, i0: nat, i1: nat, i2: nat, d4: Disk)
    requires Lengths(d) && i0 < NUM && i1 < NUM && i2 < NUM && Submitted(d, b, i0, i1, i2, d4)
    ensures d4.owner == d.owner[i0 := Some(i0)][i1 := Some(i0)][i2 := Some(i0)]
  {
  }

  /** What Complete makes of the chain that Submit made. */
  lemma RequestFreed(d: Disk, b: nat, i0: nat, i1: nat, i2: nat, d4: Disk)
    requires ChainsOk(d) && CanSubmit(d, b, i0, i1, i2) && ChainsOk(d4) && CanComplete(d4, i0)
    requires d4.chains == d.chains[i0 := Chain(i1, i2, b, Done)] && Submitted(d, b, i0, i1, i2, d4)
    ensures Returned(d, i0, i1, i2, DoComplete(d4, i0)) && DoComplete(d4, i0).chains == d.chains
    ensures var d5 := DoComplete(d4, i0);
            d5 == d4.(free := d5.free, next := d5.next, more := d5.more, info := d5.info, chains := d5.chains,
                      owner := d5.owner)
  {
    hide ChainsOk, ChainOk, DoComplete, Disown, Returned, Submitted, DoSubmit, CanSubmit;
    SubmitFacts(d, b, i0, i1, i2);
    CompleteIs(d4, i0);
    OwnersBack(d, i0, i1, i2);
    SubmittedOwners(d, b, i0, i1, i2, d4);
    TablesReturned(d, b, i0, i1, i2, d4);
    assert d4.chains - {i0} == d.chains;
  }

  lemma Again3<T>(a: seq<T>, i0: nat, i1: nat, i2: nat, x: T, y: T, z: T, w: T)
    requires i0 < |a| && i1 < |a| && i2 < |a|
    ensures a[i0 := x][i1 := y][i2 := z][i0 := w][i1 := w][i2 := w] == a[i0 := w][i1 := w][i2 := w]
  {
  }

  lemma Freed3(free: seq<bool>, i0: nat, i1: nat, i2: nat)
    requires i0 < |free| && i1 < |free| && i2 < |free| && free[i0] && free[i1] && free[i2]
    ensures free[i0 := false][i1 := false][i2 := false][i0 := true][i1 := true][i2 := true] == free
  {
  }

  lemma OwnersBack(d: Disk, i0: nat, i1: nat, i2: nat)
    requires ChainsOk(d) && i0 < NUM && i1 < NUM && i2 < NUM && i0 !in d.chains
    requires d.free[i0] && d.free[i1] && d.free[i2]
    ensures Disown(d.owner[i0 := Some(i0)][i1 := Some(i0)][i2 := Some(i0)], i0) == d.owner
  {
    var o := d.owner[i0 := Some(i0)][i1 := Some(i0)][i2 := Some(i0)];
    forall x: nat | x < NUM
      ensures Disown(o, i0)[x] == d.owner[x]
    {
      assert DescOk(d, x);
    }
  }

  /**
  A request alone, with a device that answers: everything is as before, the four counters are one further, and the
  three descriptors are free and zeroed again.
  */
  lemma RequestAlone(d: Disk, b: nat, i0: nat, i1: nat, i2: nat) returns (d': Disk)
    requires Inv(d) && d.offers == [] && d.reports == [] && CanSubmit(d, b, i0, i1, i2)
    ensures Reaches(d, [Submit(b, i0, i1, i2), DeviceTakes, DeviceReports(i0), Interrupt, Complete(i0)], d')
    ensures d' == d.(availIdx := (d.availIdx + 1) % WRAP, taken := (d.taken + 1) % WRAP, avail := d'.avail,
                     usedIdx := (d.usedIdx + 1) % WRAP, seen := (d.seen + 1) % WRAP, used := d'.used,
                     info := d.info[i0 := None], busy := d.busy - {b}, next := d.next[i0 := 0][i1 := 0][i2 := 0],
                     more := d.more[i0 := false][i1 := false][i2 := false])
  {
    hide Inv, DoComplete, RingIs;
    InvRings(d);
    RequestTaken(d, b, i0, i1, i2);
    var a := Submit(b, i0, i1, i2);
    StepKeepsInv(d, a);
    var d1 := DoSubmit(d, b, i0, i1, i2);
    StepKeepsInv(d1, DeviceTakes);
    var d2 := DoDeviceTake(d1);
    InvRings(d2);
    RequestReported(d2, d.chains, b, i0, i1, i2);
    StepKeepsInv(d2, DeviceReports(i0));
    var d3 := DoDeviceReport(d2, i0);
    RequestFlagged(d, b, i0, i1, i2, d3);
    StepKeepsInv(d3, Interrupt);
    var d4 := DoInterrupt(d3);
    InvChains(d);
    InvChains(d4);
    RequestFreed(d, b, i0, i1, i2, d4);
    d' := DoComplete(d4, i0);
    FiveSteps(d, a, d1, DeviceTakes, d2, DeviceReports(i0), d3, Interrupt, d4, Complete(i0), d');
  }

  lemma InvChains(d: Disk)
    requires Inv(d)
    ensures ChainsOk(d)
  {
  }

  lemma FiveSteps(d: Disk, a: Step, d1: Disk, a1: Step, d2: Disk, a2: Step, d3: Disk, a3: Step, d4: Disk, a4: Step,
                  d': Disk)
    requires Enabled(d, a) && d1 == Apply(d, a) && Enabled(d1, a1) && d2 == Apply(d1, a1)
    requires Enabled(d2, a2) && d3 == Apply(d2, a2) && Enabled(d3, a3) && d4 == Apply(d3, a3)
    requires Enabled(d4, a4) && d' == Apply(d4, a4)
    ensures Reaches(d, [a, a1, a2, a3, a4], d')
  {
    hide Enabled, Apply;
    var none: seq<Step> := [];
    assert [a4][1..] == none && Reaches(d4, [a4], d');
    assert [a3, a4][1..] == [a4] && Reaches(d3, [a3, a4], d');
    assert [a2, a3, a4][1..] == [a3, a4] && Reaches(d2, [a2, a3, a4], d');
    assert [a1, a2, a3, a4][1..] == [a2, a3, a4] && Reaches(d1, [a1, a2, a3, a4], d');
    assert [a, a1, a2, a3, a4][1..] == [a1, a2, a3, a4];
  }
}
