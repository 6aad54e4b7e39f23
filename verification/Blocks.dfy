/**
Disk blocks: 1024 bytes, read either as bytes or as 256 little-endian 32-bit words
(the log header and the indirect block of a file overlay the words).
*/
module Blocks {

  const BSIZE := 1024
  const WORDS := 256
  const MAXOPBLOCKS := 10
  const LOGSIZE := 30

  type byte = x: int | 0 <= x < 256
  type uint32 = x: int | 0 <= x < 0x1_0000_0000
  type Block = s: seq<byte> | |s| == BSIZE witness seq(BSIZE, _ => 0)

  function WordAt(b: Block, i: nat): uint32
    requires i < WORDS
  {
    var b0: int, b1: int, b2: int, b3: int := b[4 * i], b[4 * i + 1], b[4 * i + 2], b[4 * i + 3];
    b0 + 0x100 * b1 + 0x1_0000 * b2 + 0x100_0000 * b3
  }

  /** The four bytes of a word, low byte first. */
  function BytesOf(w: uint32): (d: seq<byte>)
    ensures |d| == 4
    ensures var d0: int, d1: int, d2: int, d3: int := d[0], d[1], d[2], d[3];
            d0 + 0x100 * d1 + 0x1_0000 * d2 + 0x100_0000 * d3 == w
  {
    [w % 0x100, w / 0x100 % 0x100, w / 0x1_0000 % 0x100, w / 0x100_0000]
  }

  /** Stores word `w` at index `i`: that word reads back and every other word is kept. */
  function SetWord(b: Block, i: nat, w: uint32): (r: Block)
    requires i < WORDS
    ensures WordAt(r, i) == w
    ensures forall j: nat | j < WORDS && j != i :: WordAt(r, j) == WordAt(b, j)
  {
    var d := BytesOf(w);
    b[4 * i := d[0]][4 * i + 1 := d[1]][4 * i + 2 := d[2]][4 * i + 3 := d[3]]
  }

  // ---- the log header: word 0 is n, word 1+i is block[i] ----

  predicate HeaderWords(lh: seq<nat>)
  {
    |lh| <= LOGSIZE && forall k | 0 <= k < |lh| :: lh[k] < 0x1_0000_0000
  }

  predicate HeaderOk(b: Block)
  {
    WordAt(b, 0) <= LOGSIZE
  }

  /** The first `n` entries of a header block. */
  function Entries(b: Block, n: nat): (r: seq<nat>)
    requires n <= LOGSIZE
    ensures |r| == n
  {
    if n == 0 then [] else Entries(b, n - 1) + [WordAt(b, n)]
  }

  lemma {:induction false} EntriesAt(b: Block, n: nat, i: nat)
    requires i < n <= LOGSIZE
    ensures Entries(b, n)[i] == WordAt(b, 1 + i)
  {
    if i < n - 1 {
      EntriesAt(b, n - 1, i);
    }
  }

  /** Two blocks with the same first n entry words have the same entries. */
  lemma EntriesFrom(b: Block, lh: seq<nat>)
    requires |lh| <= LOGSIZE && forall i | 0 <= i < |lh| :: WordAt(b, 1 + i) == lh[i]
    ensures Entries(b, |lh|) == lh
  {
    forall i | 0 <= i < |lh|
      ensures Entries(b, |lh|)[i] == lh[i]
    {
      EntriesAt(b, |lh|, i);
    }
  }

  /** read_head. */
  function HeaderOf(b: Block): seq<nat>
    requires HeaderOk(b)
  {
    Entries(b, WordAt(b, 0))
  }

  /** The loop of write_head over the first `k` entries. */
  function StoreEntries(b: Block, lh: seq<nat>, k: nat): (r: Block)
    requires HeaderWords(lh) && k <= |lh|
    ensures WordAt(r, 0) == WordAt(b, 0)
    ensures forall i | 0 <= i < k :: WordAt(r, 1 + i) == lh[i]
  {
    if k == 0 then b else SetWord(StoreEntries(b, lh, k - 1), k, lh[k - 1])
  }

  /** write_head: n and the first n entries change, whatever else was in the block stays; read_head undoes it. */
  function EncodeHeader(b: Block, lh: seq<nat>): (r: Block)
    requires HeaderWords(lh)
    ensures HeaderOk(r) && HeaderOf(r) == lh
  {
    var r := StoreEntries(SetWord(b, 0, |lh|), lh, |lh|);
    EntriesFrom(r, lh);
    r
  }
}
