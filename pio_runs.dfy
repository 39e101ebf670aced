/**
 * What the PIO routines do, block by block, as functions of the hardware:
 * the status waits that let each block through, where the words read from the
 * data port land in the request buffer, and which bytes of the request buffer
 * a write sends to the data port.
 */
module PioRuns {
  import RegisterMap
  import opened Platform
  import opened Hardware
  import opened Transfer

  // ---- The waits before each block ----

  /** What a PIO routine waits for before it moves a block: waitIntStatus on a
      NormalIntStatus bit (the reads), or the bounded poll for a PresentState bit
      followed by the read of NormalIntStatus it writes back (writeBlockMulti_pio). */
  datatype BlockWait = ForStatus(mask: bv16) | ForSpace(bits: bv32)

  /** The read clock after waitIntStatus(mask) started at read `t`. */
  function WaitEnd(d: Device, mask: bv16, t: nat): (e: nat)
    requires Live(d)
    ensures e > t
  {
    FirstHit(d, mask, t) + 1
  }

  /** waitIntStatus(mask) started at read `t` succeeds: the read that stopped it
      did not show the error bit. */
  predicate WaitOk(d: Device, mask: bv16, t: nat)
    requires Live(d)
  {
    !Errored(d.intStatus(FirstHit(d, mask, t)))
  }

  /** The wait before one block, started at read `t`, lets the block through. */
  predicate OnceOk(d: Device, w: BlockWait, t: nat)
    requires Live(d)
  {
    match w
    case ForStatus(m) => WaitOk(d, m, t)
    case ForSpace(b) => Poll(d, PresentAny(b), t, PollTries).0 == Ready
  }

  /** The read clock after the wait before one block, started at read `t`. */
  function OnceEnd(d: Device, w: BlockWait, t: nat): nat
    requires Live(d)
  {
    match w
    case ForStatus(m) => WaitEnd(d, m, t)
    case ForSpace(b) =>
      var e := Poll(d, PresentAny(b), t, PollTries).1;
      if Poll(d, PresentAny(b), t, PollTries).0 == Ready then e + 1 else e
  }

  /** The outcome of the waits of a run of blocks: how many blocks they let
      through and the read clock after the last of them. */
  datatype Waited = Waited(blocks: nat, end: nat)

  /** The waits before `k` blocks from read `t`: each block is moved when its wait
      succeeds, and the first wait that fails ends the run. */
  function BlockWaits(d: Device, w: BlockWait, t: nat, k: nat): (r: Waited)
    requires Live(d)
    ensures r.blocks <= k
    decreases k
  {
    if k == 0 then Waited(0, t)
    else if !OnceOk(d, w, t) then Waited(0, OnceEnd(d, w, t))
    else
      var r := BlockWaits(d, w, OnceEnd(d, w, t), k - 1);
      Waited(r.blocks + 1, r.end)
  }

  /** `r` with `i` more blocks in front of it. */
  function After(i: nat, r: Waited): Waited
  {
    Waited(r.blocks + i, r.end)
  }

  /** The first wait of a run decides whether the run goes on. */
  lemma WaitsStep(d: Device, w: BlockWait, t: nat, k: nat)
    requires Live(d) && k > 0
    ensures OnceOk(d, w, t) ==> BlockWaits(d, w, t, k) == After(1, BlockWaits(d, w, OnceEnd(d, w, t), k - 1))
    ensures !OnceOk(d, w, t) ==> BlockWaits(d, w, t, k) == Waited(0, OnceEnd(d, w, t))
  {
  }

  /** The read at which the wait before block `j` starts, when every earlier wait
      succeeded. */
  function WaitStart(d: Device, w: BlockWait, t: nat, j: nat): nat
    requires Live(d)
    decreases j
  {
    if j == 0 then t else WaitStart(d, w, OnceEnd(d, w, t), j - 1)
  }

  /** A run lets through exactly the blocks before its first failing wait: every
      wait before block `blocks` succeeded, and when the run stopped short, the
      wait before block `blocks` failed. */
  lemma {:induction false} BlockWaitsMeaning(d: Device, w: BlockWait, t: nat, k: nat)
    requires Live(d)
    ensures var r := BlockWaits(d, w, t, k);
      (forall j :: 0 <= j < r.blocks ==> OnceOk(d, w, WaitStart(d, w, t, j)))
      && (r.blocks < k ==> !OnceOk(d, w, WaitStart(d, w, t, r.blocks)))
    decreases k
  {
    if k > 0 && OnceOk(d, w, t) {
      var e := OnceEnd(d, w, t);
      BlockWaitsMeaning(d, w, e, k - 1);
      var r := BlockWaits(d, w, t, k);
      forall j | 0 <= j < r.blocks
        ensures OnceOk(d, w, WaitStart(d, w, t, j))
      {
        if j > 0 {
          assert WaitStart(d, w, t, j) == WaitStart(d, w, e, j - 1);
        }
      }
      assert r.blocks > 0 ==> WaitStart(d, w, t, r.blocks) == WaitStart(d, w, e, r.blocks - 1);
    }
  }

  /** The outcome of a PIO routine: its status, the read clock after it, and
      the blocks it moved through the data port. */
  datatype PioRun = PioRun(status: IoStatus, end: nat, blocks: nat)

  /** readBlockMulti_pio from the wait for its command, started at read `t`: a
      failed command wait ends it with an error; otherwise the block waits run,
      and when all of them let their block through, the wait for transfer
      complete follows and the read succeeds whatever that wait shows. */
  function MultiReadRun(d: Device, t: nat, nblks: nat): (run: PioRun)
    requires Live(d)
    ensures run.blocks <= nblks
  {
    if !WaitOk(d, RegisterMap.CmdComplete, t) then PioRun(Error, WaitEnd(d, RegisterMap.CmdComplete, t), 0)
    else
      var r := BlockWaits(d, ForStatus(RegisterMap.BuffReadReady), WaitEnd(d, RegisterMap.CmdComplete, t), nblks);
      if r.blocks == nblks then PioRun(Success, WaitEnd(d, RegisterMap.XferComplete, r.end), nblks)
      else PioRun(Error, r.end, r.blocks)
  }

  /** A multi-block read succeeds exactly when its command wait and all of its
      block waits succeed, and then it moves every block; a failed read moves the
      blocks before the first failing wait, and only when the command wait
      succeeded. The status is never a timeout or a missing medium. */
  lemma MultiReadRunMeaning(d: Device, t: nat, nblks: nat)
    requires Live(d)
    ensures var run := MultiReadRun(d, t, nblks);
      var s := WaitEnd(d, RegisterMap.CmdComplete, t);
      (run.status == Success || run.status == Error)
      && (run.status == Success <==>
            WaitOk(d, RegisterMap.CmdComplete, t) && forall j :: 0 <= j < nblks ==> OnceOk(d, ForStatus(RegisterMap.BuffReadReady), WaitStart(d, ForStatus(RegisterMap.BuffReadReady), s, j)))
      && (run.status == Success ==> run.blocks == nblks)
      && (!WaitOk(d, RegisterMap.CmdComplete, t) ==> run.blocks == 0)
      && (WaitOk(d, RegisterMap.CmdComplete, t) && run.status == Error ==>
            run.blocks < nblks && !OnceOk(d, ForStatus(RegisterMap.BuffReadReady), WaitStart(d, ForStatus(RegisterMap.BuffReadReady), s, run.blocks)))
  {
    BlockWaitsMeaning(d, ForStatus(RegisterMap.BuffReadReady), WaitEnd(d, RegisterMap.CmdComplete, t), nblks);
  }

  /** readBlockSingle_pio from the poll after its command, started at read `t`:
      the block is read when the poll sees Buffer Read Ready, and an error bit or
      a poll that runs out of tries fails the read. */
  function SingleReadRun(d: Device, t: nat): (run: PioRun)
    ensures run.blocks <= 1
  {
    var p := Poll(d, StatusAll(RegisterMap.BuffReadReady), t, PollTries);
    if p.0 == Ready then PioRun(Success, p.1, 1) else PioRun(Error, p.1, 0)
  }

  /** A single-block read succeeds only when the last status it read showed
      Buffer Read Ready, and then it moves its block; it fails, moving nothing,
      only after a status read with the error bit or after all 1100011 tries. */
  lemma SingleReadRunMeaning(d: Device, t: nat)
    ensures var run := SingleReadRun(d, t);
      t < run.end
      && (run.status == Success <==> run.blocks == 1)
      && (run.status == Success ==> Satisfied(d, StatusAll(RegisterMap.BuffReadReady), run.end - 1))
      && (run.status != Success ==>
            run.status == Error && (Errored(d.intStatus(run.end - 1)) || run.end == t + 2 * PollTries))
  {
    PollMeaning(d, StatusAll(RegisterMap.BuffReadReady), t, PollTries);
  }

  /** writeBlockSingle_pio from the poll after its command, started at read `t`:
      the poll for Buffer Write Ready lets the block through, and the poll for
      transfer complete after it decides the outcome. */
  function SingleWriteRun(d: Device, t: nat): (run: PioRun)
    ensures run.blocks <= 1
  {
    var p := Poll(d, StatusAll(RegisterMap.BuffWriteReady), t, PollTries);
    if p.0 != Ready then PioRun(Error, p.1, 0)
    else
      var q := Poll(d, StatusAll(RegisterMap.XferComplete), p.1, PollTries);
      PioRun(if q.0 == Ready then Success else Error, q.1, 1)
  }

  /** A single-block write succeeds exactly when both of its polls see their bit,
      and it sends its block exactly when the first one does; it never reports a
      timeout or a missing medium. */
  lemma SingleWriteRunMeaning(d: Device, t: nat)
    ensures var run := SingleWriteRun(d, t);
      var p := Poll(d, StatusAll(RegisterMap.BuffWriteReady), t, PollTries);
      t < run.end && (run.status == Success || run.status == Error)
      && (run.blocks == 1 <==> p.0 == Ready)
      && (run.status == Success <==>
            p.0 == Ready && Poll(d, StatusAll(RegisterMap.XferComplete), p.1, PollTries).0 == Ready)
      && (run.status == Success ==> Satisfied(d, StatusAll(RegisterMap.XferComplete), run.end - 1))
  {
    var p := Poll(d, StatusAll(RegisterMap.BuffWriteReady), t, PollTries);
    PollMeaning(d, StatusAll(RegisterMap.BuffWriteReady), t, PollTries);
    if p.0 == Ready {
      PollMeaning(d, StatusAll(RegisterMap.XferComplete), p.1, PollTries);
    }
  }

  /** writeBlockMulti_pio from its first block, started at read `t`: each block
      waits for Space Available in PresentState, and once every block is sent the
      poll for transfer complete decides the outcome. Unlike the multi-block
      read, a failed last poll fails the write. */
  function MultiWriteRun(d: Device, space: bv32, t: nat, nblks: nat): (run: PioRun)
    requires Live(d)
    ensures run.blocks <= nblks
  {
    var r := BlockWaits(d, ForSpace(space), t, nblks);
    if r.blocks < nblks then PioRun(Error, r.end, r.blocks)
    else
      var q := Poll(d, StatusAll(RegisterMap.XferComplete), r.end, PollTries);
      PioRun(if q.0 == Ready then Success else Error, q.1, nblks)
  }

  /** A multi-block write succeeds exactly when every block wait and the final
      poll succeed, and then it sent every block; a write stopped short sent the
      blocks before the first failing wait. */
  lemma MultiWriteRunMeaning(d: Device, space: bv32, t: nat, nblks: nat)
    requires Live(d)
    ensures var run := MultiWriteRun(d, space, t, nblks);
      var r := BlockWaits(d, ForSpace(space), t, nblks);
      (run.status == Success || run.status == Error)
      && (run.status == Success <==>
            (forall j :: 0 <= j < nblks ==> OnceOk(d, ForSpace(space), WaitStart(d, ForSpace(space), t, j)))
            && Poll(d, StatusAll(RegisterMap.XferComplete), r.end, PollTries).0 == Ready)
      && (run.status == Success ==> run.blocks == nblks)
      && (run.blocks < nblks ==> !OnceOk(d, ForSpace(space), WaitStart(d, ForSpace(space), t, run.blocks)))
  {
    BlockWaitsMeaning(d, ForSpace(space), t, nblks);
  }

  // ---- Reads: the data port into the request buffer ----

  /** The 512 bytes of block `j` of a read whose first data port word is number `from`. */
  function PortBlock(d: Device, from: nat, j: nat): (b: seq<bv8>)
    ensures |b| == 512
  {
    Bytes(PortWords(d, from + 128 * j, 128))
  }

  /** The request buffer after the first `k` blocks of a multi-block PIO read:
      block `j` of the data port written at byte `(offset + j) * 512`, counted in
      32 bits, and clipped at the end of the buffer. */
  function ReadInto(bytes: seq<bv8>, d: Device, from: nat, offset: nat, k: nat): (r: seq<bv8>)
    ensures |r| == |bytes|
    decreases k
  {
    if k == 0 then bytes
    else Overwrite(ReadInto(bytes, d, from, offset, k - 1), U32((offset + k - 1) * 512), PortBlock(d, from, k - 1))
  }

  /** One more block of a read: the words read from the data port next, written
      at block `offset + i`. */
  lemma ReadIntoNext(bytes: seq<bv8>, d: Device, from: nat, offset: nat, i: nat)
    ensures ReadInto(bytes, d, from, offset, i + 1)
         == Overwrite(ReadInto(bytes, d, from, offset, i), U32((i + offset) * 512), Bytes(PortWords(d, from + 128 * i, 128)))
  {
    assert (offset + (i + 1) - 1) * 512 == (i + offset) * 512;
  }

  /** The 512 bytes of block `j` of a buffer, counted from block `offset`. */
  function BlockAt(bytes: seq<bv8>, offset: nat, j: nat): seq<bv8>
    requires (offset + j + 1) * 512 <= |bytes|
  {
    bytes[(offset + j) * 512..(offset + j + 1) * 512]
  }

  /** When the buffer holds the blocks and their byte offsets fit in 32 bits, a
      read puts block `j` of the data port at block `offset + j` of the buffer and
      leaves every other byte alone. */
  lemma {:induction false} ReadIntoPlaces(bytes: seq<bv8>, d: Device, from: nat, offset: nat, k: nat)
    requires (offset + k) * 512 <= |bytes| && (offset + k) * 512 <= Two32
    ensures forall j :: 0 <= j < k ==> BlockAt(ReadInto(bytes, d, from, offset, k), offset, j) == PortBlock(d, from, j)
    ensures forall i :: 0 <= i < |bytes| && !(offset * 512 <= i < (offset + k) * 512) ==>
      ReadInto(bytes, d, from, offset, k)[i] == bytes[i]
    decreases k
  {
    if k > 0 {
      var prev := ReadInto(bytes, d, from, offset, k - 1);
      var data := PortBlock(d, from, k - 1);
      ReadIntoPlaces(bytes, d, from, offset, k - 1);
      var at := (offset + k - 1) * 512;
      assert U32(at) == at;
      assert ReadInto(bytes, d, from, offset, k) == Overwrite(prev, at, data);
      forall j | 0 <= j < k
        ensures BlockAt(Overwrite(prev, at, data), offset, j) == PortBlock(d, from, j)
      {
        if j < k - 1 {
          OverwriteElsewhere(prev, at, data, (offset + j) * 512, (offset + j + 1) * 512);
        } else {
          OverwriteBlock(prev, at, data);
        }
      }
      forall i | 0 <= i < |bytes| && !(offset * 512 <= i < (offset + k) * 512)
        ensures Overwrite(prev, at, data)[i] == bytes[i]
      {
        OverwriteElsewhere(prev, at, data, i, i + 1);
        assert Overwrite(prev, at, data)[i] == Overwrite(prev, at, data)[i..i + 1][0];
      }
    }
  }

  /** Two reads in a row, the second going on from the data port word and the
      buffer block where the first stopped, put the blocks where one longer read
      would. */
  lemma {:induction false} ReadIntoChain(bytes: seq<bv8>, d: Device, from: nat, offset: nat, k1: nat, k2: nat)
    ensures ReadInto(ReadInto(bytes, d, from, offset, k1), d, from + 128 * k1, offset + k1, k2)
         == ReadInto(bytes, d, from, offset, k1 + k2)
    decreases k2
  {
    if k2 > 0 {
      ReadIntoChain(bytes, d, from, offset, k1, k2 - 1);
      assert from + 128 * k1 + 128 * (k2 - 1) == from + 128 * (k1 + k2 - 1);
      assert PortBlock(d, from + 128 * k1, k2 - 1) == PortBlock(d, from, k1 + k2 - 1);
      assert (offset + k1 + k2 - 1) * 512 == (offset + (k1 + k2) - 1) * 512;
    }
  }

  /** An overwrite that fits in the buffer puts the data where it says. */
  lemma OverwriteBlock(bytes: seq<bv8>, at: nat, data: seq<bv8>)
    requires at + |data| <= |bytes|
    ensures Overwrite(bytes, at, data)[at..at + |data|] == data
  {
    if at < |bytes| {
      assert Overwrite(bytes, at, data) == bytes[..at] + data + bytes[at + |data|..];
    }
  }

  /** An overwrite that fits in the buffer leaves a slice clear of it alone. */
  lemma OverwriteElsewhere(bytes: seq<bv8>, at: nat, data: seq<bv8>, lo: nat, hi: nat)
    requires at + |data| <= |bytes| && lo <= hi <= |bytes| && (hi <= at || at + |data| <= lo)
    ensures Overwrite(bytes, at, data)[lo..hi] == bytes[lo..hi]
  {
    if at < |bytes| {
      var r := Overwrite(bytes, at, data);
      assert r == bytes[..at] + data + bytes[at + |data|..];
      forall i | lo <= i < hi
        ensures r[i] == bytes[i]
      {
        if i < at {
          assert r[i] == bytes[..at][i];
        } else {
          assert r[i] == bytes[at + |data|..][i - at - |data|];
        }
      }
    }
  }

  // ---- Writes: the request buffer to the data port ----

  /** The 512-byte staging block after readBytes has copied `k` blocks of the
      request buffer into it, from block `offset` on: each copy brings the bytes the
      request buffer has there, and where it ends early the staging block keeps what
      it held before (the `stale` bytes at first). */
  function Staging(bytes: seq<bv8>, offset: nat, k: nat, stale: seq<bv8>): (b: seq<bv8>)
    requires |stale| == 512
    ensures |b| == 512
    decreases k
  {
    if k == 0 then stale
    else Overwrite(Staging(bytes, offset, k - 1, stale), 0, Clip(bytes, U32((offset + k - 1) * 512), 512))
  }

  /** The words written to the data port for the first `k` blocks of a write. */
  function StagedWords(bytes: seq<bv8>, offset: nat, k: nat, stale: seq<bv8>): (ws: seq<bv32>)
    requires |stale| == 512
    ensures |ws| == 128 * k
    decreases k
  {
    if k == 0 then [] else StagedWords(bytes, offset, k - 1, stale) + Words(Staging(bytes, offset, k, stale))
  }

  /** A single-block write sends the first staged block: the request buffer's
      bytes at `offset * 512` over the stale staging block. */
  lemma StagedFirst(bytes: seq<bv8>, offset: nat, stale: seq<bv8>)
    requires |stale| == 512
    ensures StagedWords(bytes, offset, 1, stale) == Words(Overwrite(stale, 0, Clip(bytes, U32(offset * 512), 512)))
  {
    assert (offset + 1 - 1) * 512 == offset * 512;
  }

  /** One more block of a write: the staging block after copying block `offset + i`
      over the previous one, and the words it adds. */
  lemma StagedNext(bytes: seq<bv8>, offset: nat, i: nat, stale: seq<bv8>)
    requires |stale| == 512
    ensures Overwrite(Staging(bytes, offset, i, stale), 0, Clip(bytes, U32((offset + i) * 512), 512)) == Staging(bytes, offset, i + 1, stale)
    ensures StagedWords(bytes, offset, i + 1, stale) == StagedWords(bytes, offset, i, stale) + Words(Staging(bytes, offset, i + 1, stale))
  {
    assert (offset + (i + 1) - 1) * 512 == (offset + i) * 512;
  }

  /** A block the request buffer holds in full is staged as it is. */
  lemma StagedWhole(bytes: seq<bv8>, offset: nat, i: nat, stale: seq<bv8>)
    requires |stale| == 512 && (offset + i + 1) * 512 <= |bytes| && (offset + i + 1) * 512 <= Two32
    ensures Staging(bytes, offset, i + 1, stale) == BlockAt(bytes, offset, i)
  {
    var at := (offset + i) * 512;
    assert U32(at) == at;
    assert (offset + (i + 1) - 1) * 512 == at;
    var b := Staging(bytes, offset, i + 1, stale);
    var prev := Staging(bytes, offset, i, stale);
    ClipMeaning(bytes, at, 512);
    OverwriteMeaning(prev, 0, Clip(bytes, at, 512));
    forall p | 0 <= p < 512
      ensures b[p] == bytes[at + p]
    {
    }
  }

  lemma {:induction false} BytesAppend(a: seq<bv32>, b: seq<bv32>)
    ensures Bytes(a + b) == Bytes(a) + Bytes(b)
  {
    if a == [] {
      assert a + b == b;
    } else {
      assert (a + b)[0] == a[0] && (a + b)[1..] == a[1..] + b;
      BytesAppend(a[1..], b);
    }
  }

  /** When the request buffer holds the blocks and their byte offsets fit in 32
      bits, a write sends exactly the buffer's bytes of those blocks to the data
      port, whatever the staging block held before. */
  lemma {:induction false} StagedWordsAreBuffer(bytes: seq<bv8>, offset: nat, k: nat, stale: seq<bv8>)
    requires |stale| == 512 && (offset + k) * 512 <= |bytes| && (offset + k) * 512 <= Two32
    ensures Bytes(StagedWords(bytes, offset, k, stale)) == bytes[offset * 512..(offset + k) * 512]
    decreases k
  {
    if k > 0 {
      StagedWordsAreBuffer(bytes, offset, k - 1, stale);
      StagedWhole(bytes, offset, k - 1, stale);
      var lo, mid, hi := offset * 512, (offset + k - 1) * 512, (offset + k) * 512;
      assert BlockAt(bytes, offset, k - 1) == bytes[mid..hi];
      AppendBlock(StagedWords(bytes, offset, k - 1, stale), Staging(bytes, offset, k, stale), bytes, lo, mid, hi);
    }
  }

  /** The bytes of the words so far followed by one more staged block. */
  lemma AppendBlock(ws: seq<bv32>, block: seq<bv8>, bytes: seq<bv8>, lo: nat, mid: nat, hi: nat)
    requires lo <= mid <= hi <= |bytes| && |block| == 512
    requires Bytes(ws) == bytes[lo..mid] && block == bytes[mid..hi]
    ensures Bytes(ws + Words(block)) == bytes[lo..hi]
  {
    BytesOfWords(block);
    BytesAppend(ws, Words(block));
    SliceSplit(bytes, lo, mid, hi);
  }

  lemma SliceSplit<T>(s: seq<T>, lo: nat, mid: nat, hi: nat)
    requires lo <= mid <= hi <= |s|
    ensures s[lo..hi] == s[lo..mid] + s[mid..hi]
  {
  }
}
