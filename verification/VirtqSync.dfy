/**
The two sleeps of virtio_disk_rw (kernel/virtio_disk.c) as a use of the sleep/wakeup monitor: vdisk_lock around
the disk of Virtqueue, whose device steps happen without the lock.
*/
module VirtqSync {
  import opened Options
  import opened Monitor
  import Virtqueue

  type Disk = Virtqueue.Disk

  const NUM := Virtqueue.NUM
  const FREE: nat := 0                  // &disk.free[0]

  /** The channel of buffer `b`. */
  function Buffer(b: nat): nat
  {
    b + 1
  }

  predicate ThreeFree(free: seq<bool>)
  {
    exists x, y, z :: 0 <= x < y < z < |free| && free[x] && free[y] && free[z]
  }

  /** What a sleeper waits for: three free descriptors, or its buffer's flag to go down. */
  predicate Ready(c: nat, d: Disk)
  {
    if c == FREE then ThreeFree(d.free) else c - 1 !in d.busy
  }

  /** The stretches under vdisk_lock, and whom they then owe a wakeup; a failed alloc3_desc frees what it took. */
  ghost predicate Changes(d: Disk, d': Disk, due: set<nat>)
  {
    || (exists b: nat, i0: nat, i1: nat, i2: nat ::
          Virtqueue.CanSubmit(d, b, i0, i1, i2) && d' == Virtqueue.DoSubmit(d, b, i0, i1, i2) && due == {})
    || (Virtqueue.CanInterrupt(d) && d' == Virtqueue.DoInterrupt(d) && due == Flagged(d))
    || (exists h: nat :: Virtqueue.CanComplete(d, h) && d' == Virtqueue.DoComplete(d, h) && due == {FREE})
    || (d' == d && due == {FREE})
  }

  /** The channel that one iteration of the handler wakes. */
  function Flagged(d: Disk): set<nat>
    requires Virtqueue.Lengths(d)
  {
    var h := d.used[d.seen % NUM];
    if h < NUM && d.info[h].Some? then {Buffer(d.info[h].value)} else {}
  }

  /** The code's steps, and the device's. */
  ghost predicate Lawful(s: Sys<Disk>, a: Step<Disk>)
    requires Enabled(s, Ready, a)
  {
    match a
    case Update(p, d, due) => Changes(s.data, d, due)
    case Outside(p, d) =>
      || (Virtqueue.CanDeviceTake(s.data) && d == Virtqueue.DoDeviceTake(s.data))
      || (exists h: nat :: Virtqueue.CanDeviceReport(s.data, h) && d == Virtqueue.DoDeviceReport(s.data, h))
    case Leave(p) => s.threads[p].pc.due == {}
    case SleepLock(p, c) => s.threads[p].pc.due == {}
    case _ => true
  }

  /** Each change owes a wakeup to everyone it makes ready. */
  lemma ChangesOwe(d: Disk, d': Disk, due: set<nat>, c: nat)
    requires Changes(d, d', due) && Ready(c, d') && !Ready(c, d)
    ensures c in due
  {
    if b: nat, i0: nat, i1: nat, i2: nat :|
      Virtqueue.CanSubmit(d, b, i0, i1, i2) && d' == Virtqueue.DoSubmit(d, b, i0, i1, i2) && due == {} {
      FewerFree(d.free, d'.free);
    }
  }

  lemma FewerFree(free: seq<bool>, free': seq<bool>)
    requires |free'| == |free| && forall x | 0 <= x < |free| && free'[x] :: free[x]
    ensures ThreeFree(free') ==> ThreeFree(free)
  {
  }

  lemma LawfulIsDisciplined(s: Sys<Disk>, a: Step<Disk>)
    requires Enabled(s, Ready, a) && Lawful(s, a)
    ensures Disciplined(s, Ready, a)
  {
    hide Changes;
    if a.Update? {
      forall c: nat | Ready(c, a.data) && !Ready(c, s.data)
        ensures c in a.due
      {
        ChangesOwe(s.data, a.data, a.due, c);
      }
    }
  }

  ghost predicate Runs(s: Sys<Disk>, run: seq<Step<Disk>>, s': Sys<Disk>)
    decreases |run|
  {
    if run == [] then s' == s
    else Enabled(s, Ready, run[0]) && Lawful(s, run[0]) && Runs(Apply(s, Ready, run[0]), run[1..], s')
  }

  lemma {:induction false} RunIsDisciplined(s: Sys<Disk>, run: seq<Step<Disk>>, s': Sys<Disk>)
    requires Runs(s, run, s')
    ensures Reaches(s, Ready, run, s')
    decreases |run|
  {
    hide Enabled, Apply, Lawful, Disciplined, Ready;
    if run != [] {
      LawfulIsDisciplined(s, run[0]);
      RunIsDisciplined(Apply(s, Ready, run[0]), run[1..], s');
    }
  }

  /** In every run, whenever vdisk_lock is free, nobody sleeps on a buffer whose flag is down. */
  lemma BufferSleeperIsBusy(s: Sys<Disk>, run: seq<Step<Disk>>, s': Sys<Disk>, p: nat, b: nat)
    requires Initial(s) && Runs(s, run, s') && s'.lk.None? && Sleeps(s', p, Buffer(b))
    ensures b in s'.data.busy
  {
    RunIsDisciplined(s, run, s');
    NoLostWakeup(s, Ready, run, s', p, Buffer(b));
  }

  /** In every run, whenever vdisk_lock is free, nobody sleeps for descriptors while three are free. */
  lemma DescriptorSleeperHasTooFew(s: Sys<Disk>, run: seq<Step<Disk>>, s': Sys<Disk>, p: nat)
    requires Initial(s) && Runs(s, run, s') && s'.lk.None? && Sleeps(s', p, FREE)
    ensures !ThreeFree(s'.data.free)
  {
    RunIsDisciplined(s, run, s');
    NoLostWakeup(s, Ready, run, s', p, FREE);
  }
}
