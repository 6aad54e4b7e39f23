/** The ring buffer of kernel/pipe.c: 32-bit counters that wrap, 512 bytes, and the byte queue they stand for. */
module PipeRing {
  import opened Blocks
  import opened Rings

  const PIPESIZE: nat := 512
  const WRAP: nat := 0x1_0000_0000

  /** `put` and `got` are all bytes ever stored and fetched. */
  datatype Ring = Ring(data: seq<byte>, nread: uint32, nwrite: uint32, readopen: bool, writeopen: bool,
                       put: seq<byte>, got: seq<byte>)

  predicate Full(d: Ring)
  {
    d.nwrite == (d.nread + PIPESIZE) % WRAP
  }

  predicate Empty(d: Ring)
  {
    d.nread == d.nwrite
  }

  /**
  What is fetched is a prefix of what was stored, at most PIPESIZE bytes lie in between, and the buffer holds
  those.
  */
  ghost predicate Fifo(d: Ring)
  {
    && |d.data| == PIPESIZE && |d.got| <= |d.put| <= |d.got| + PIPESIZE && d.got == d.put[..|d.got|]
    && d.nread == |d.got| % WRAP && d.nwrite == |d.put| % WRAP
    && forall k {:trigger d.put[k]} | |d.got| <= k < |d.put| :: d.data[k % PIPESIZE] == d.put[k]
  }

  /** The counters' tests stay right when they wrap. */
  lemma CounterTests(d: Ring)
    requires Fifo(d)
    ensures |d.data| == PIPESIZE && (Full(d) <==> |d.put| == |d.got| + PIPESIZE)
    ensures Empty(d) <==> |d.put| == |d.got|
    ensures d.nwrite % PIPESIZE == |d.put| % PIPESIZE && d.nread % PIPESIZE == |d.got| % PIPESIZE
  {
    WrapMod(PIPESIZE, 8388608, |d.put|);      // 512 divides 2^32
    WrapMod(PIPESIZE, 8388608, |d.got|);
  }

  lemma Lengths(d: Ring)
    requires Fifo(d)
    ensures |d.data| == PIPESIZE && |d.got| <= |d.put|
  {
  }

  function Store(d: Ring, b: byte): Ring
    requires |d.data| == PIPESIZE
  {
    d.(data := d.data[d.nwrite % PIPESIZE := b], nwrite := (d.nwrite + 1) % WRAP, put := d.put + [b])
  }

  function Fetch(d: Ring): Ring
    requires |d.data| == PIPESIZE
  {
    d.(nread := (d.nread + 1) % WRAP, got := d.got + [d.data[d.nread % PIPESIZE]])
  }

  lemma NextCount(n: nat)
    ensures (n % WRAP + 1) % WRAP == (n + 1) % WRAP
  {
  }

  lemma StoreKeeps(d: Ring, b: byte)
    requires Fifo(d) && !Full(d)
    ensures Fifo(Store(d, b))
  {
    CounterTests(d);
    NextCount(|d.put|);
    var d' := Store(d, b);
    forall k | |d'.got| <= k < |d'.put|
      ensures d'.data[k % PIPESIZE] == d'.put[k]
    {
      if k < |d.put| {
        SlotsDiffer(PIPESIZE, k, |d.put|);
      }
    }
  }

  /** The byte fetched is the oldest one not fetched yet. */
  lemma FetchKeeps(d: Ring)
    requires Fifo(d) && !Empty(d)
    ensures Fifo(Fetch(d)) && Fetch(d).got == d.got + [d.put[|d.got|]]
  {
    CounterTests(d);
    NextCount(|d.got|);
    assert d.put[..|d.got| + 1] == d.put[..|d.got|] + [d.put[|d.got|]];
  }

  ghost predicate AllTrue(f: nat -> bool, i: nat, k: nat)
  {
    forall j: nat {:trigger f(j)} | i <= j < k :: f(j)
  }

  ghost predicate NoneTrue(f: nat -> bool, i: nat, k: nat)
  {
    forall j: nat {:trigger f(j)} | i <= j < k :: !f(j)
  }

  /** Why a stretch of pipewrite ends. */
  datatype Stop = Finished | MustSleep | NoCopy | Quits

  /** The stretches of pipewrite and piperead during which the lock is held. */
  class Pipe {
    const data: array<byte>
    var nread: uint32
    var nwrite: uint32
    var readopen: bool
    var writeopen: bool
    ghost var put: seq<byte>
    ghost var got: seq<byte>

    ghost function R(): Ring
      reads this, data
    {
      Ring(data[..], nread, nwrite, readopen, writeopen, put, got)
    }

    /** pipealloc */
    constructor ()
      ensures Fifo(R()) && readopen && writeopen && put == [] && got == [] && fresh(data)
    {
      data := new byte[PIPESIZE](_ => 0);
      nread, nwrite, readopen, writeopen := 0, 0, true, true;
      put, got := [], [];
    }

    /**
    pipewrite from `src[i]` on until it has to sleep, is done, or gives up: stores bytes while there is
    room. `copyOk` says which bytes copyin can read, `killed` whether the process is found killed in a round.
    */
    method Fill(src: seq<byte>, i: nat, copyOk: nat -> bool, killed: nat -> bool) returns (k: nat, why: Stop)
      requires Fifo(R()) && i <= |src|
      modifies this`nwrite, this`put, data
      ensures Fifo(R()) && i <= k <= |src| && put == old(put) + src[i..k] && got == old(got)
      ensures AllTrue(copyOk, i, k) && NoneTrue(killed, i, k) && (i < k ==> readopen)
      ensures why == if k == |src| then Finished else if !readopen || killed(k) then Quits
                     else if |put| == |got| + PIPESIZE then MustSleep else NoCopy
      ensures why.NoCopy? ==> !copyOk(k)
    {
      hide Fifo;
      k := i;
      while k < |src|
        invariant i <= k <= |src| && Fifo(R()) && put == old(put) + src[i..k] && got == old(got)
        invariant AllTrue(copyOk, i, k) && NoneTrue(killed, i, k) && (i < k ==> readopen)
      {
        CounterTests(R());
        if !readopen || killed(k) {
          return k, Quits;
        }
        if nwrite == (nread + PIPESIZE) % WRAP {
          return k, MustSleep;
        }
        if !copyOk(k) {
          return k, NoCopy;
        }
        ghost var d := R();
        StoreKeeps(d, src[k]);
        data[nwrite % PIPESIZE] := src[k];
        nwrite := (nwrite + 1) % WRAP;
        put := put + [src[k]];
        assert R() == Store(d, src[k]);
        k := k + 1;
      }
      return k, Finished;
    }

    /** The second loop of piperead: up to `n` bytes, oldest first; a byte whose copyout fails is lost. */
    method Drain(n: nat, copyOk: nat -> bool) returns (i: nat, dst: seq<byte>)
      requires Fifo(R())
      modifies this`nread, this`got
      ensures Fifo(R()) && put == old(put) && i == |dst| <= n
      ensures |old(got)| + i <= |put| && dst == put[|old(got)|..|old(got)| + i] && AllTrue(copyOk, 0, i)
      ensures if i == n || |old(got)| + i == |put| then got == old(got) + dst
              else !copyOk(i) && got == old(got) + dst + [put[|old(got)| + i]]
    {
      hide Fifo;
      i, dst := 0, [];
      Lengths(R());
      while i < n
        invariant i == |dst| <= n && Fifo(R()) && put == old(put) && got == old(got) + dst
        invariant |old(got)| + i <= |put| && dst == put[|old(got)|..|old(got)| + i]
        invariant AllTrue(copyOk, 0, i)
      {
        CounterTests(R());
        if nread == nwrite {
          return;
        }
        ghost var d := R();
        FetchKeeps(d);
        var ch := data[nread % PIPESIZE];
        nread := (nread + 1) % WRAP;
        got := got + [ch];
        assert R() == Fetch(d);
        if !copyOk(i) {
          assert got == old(got) + dst + [ch];
          return;
        }
        assert got == old(got) + (dst + [ch]);
        Lengths(R());
        dst := dst + [ch];
        i := i + 1;
      }
    }
  }
}
