/**
 * The SDMA wait loop of sdma_access as a function of the hardware: what ends it
 * (an error status, a sleep that reaches its deadline, or transfer complete) and
 * how many DMA interrupts it serves on the way, with the 32-bit counters the
 * loop keeps.
 */
module SdmaRuns {
  import opened RegisterMap
  import opened Platform
  import opened Hardware
  import opened Transfer
  import PioRuns
  import SdCommands
  import CardRegisters

  /** How the SDMA loop ended, the read clock after it, and the DMA interrupts it
      served before that. */
  datatype DmaEnd = DmaEnd(status: IoStatus, end: nat, interrupts: nat)

  /** The SDMA loop from read `t`. Each round reads NormalIntStatus (an error bit
      ends the loop with an error), sleeps (a sleep that reaches the deadline ends
      it with a timeout), and reads NormalIntStatus again: transfer complete ends
      it with success, a DMA interrupt is served and the loop goes on, and a
      wake-up with neither goes round again. */
  function SdmaWait(d: Device, t: nat): (r: DmaEnd)
    requires Live(d)
    ensures r.end > t
    decreases if t < d.horizon then d.horizon - t else 0
  {
    if Errored(d.intStatus(t)) then DmaEnd(Error, t + 1, 0)
    else if d.timedOut(t + 1) then DmaEnd(Timeout, t + 2, 0)
    else if AnyOf(d.intStatus(t + 2), XferComplete) then DmaEnd(Success, t + 3, 0)
    else if AnyOf(d.intStatus(t + 2), DMAInterrupt) then
      var r := SdmaWait(d, t + 3);
      DmaEnd(r.status, r.end, r.interrupts + 1)
    else SdmaWait(d, t + 3)
  }

  /** `r` with `k` more interrupts served before it. */
  function Served(k: nat, r: DmaEnd): DmaEnd
  {
    DmaEnd(r.status, r.end, r.interrupts + k)
  }

  /** Round `j` of the loop from read `t` starts at read `t + 3 * j`. */
  function RoundStart(t: nat, j: nat): nat
  {
    t + 3 * j
  }

  /** A round that neither ends the loop nor stops short of reading the status
      after its sleep. */
  predicate GoesOn(d: Device, s: nat)
  {
    !Errored(d.intStatus(s)) && !d.timedOut(s + 1) && !AnyOf(d.intStatus(s + 2), XferComplete)
  }

  /** The loop ends on the round it should: success right after a status read
      showing transfer complete, an error right after a read showing the error
      bit, a timeout right after a sleep that reached its deadline, and never
      with any other status. */
  lemma {:induction false} SdmaWaitEnds(d: Device, t: nat)
    requires Live(d)
    ensures var r := SdmaWait(d, t);
      (r.status == Success ==> r.end >= t + 3 && AnyOf(d.intStatus(r.end - 1), XferComplete)
                               && !d.timedOut(r.end - 2) && !Errored(d.intStatus(r.end - 3)))
      && (r.status == Timeout ==> r.end >= t + 2 && d.timedOut(r.end - 1) && !Errored(d.intStatus(r.end - 2)))
      && (r.status == Error ==> Errored(d.intStatus(r.end - 1)))
      && r.status != NoMedia
    decreases if t < d.horizon then d.horizon - t else 0
  {
    if GoesOn(d, t) {
      SdmaWaitEnds(d, t + 3);
    }
  }

  /** A round that goes on leaves the rest of the loop to the next round, with
      one more interrupt served when the status read after the sleep shows a DMA
      interrupt. */
  lemma SdmaWaitNext(d: Device, t: nat, t0: nat, k: nat)
    requires Live(d) && Served(k, SdmaWait(d, t)) == SdmaWait(d, t0) && GoesOn(d, t)
    ensures var j := if AnyOf(d.intStatus(t + 2), DMAInterrupt) then k + 1 else k;
      Served(j, SdmaWait(d, t + 3)) == SdmaWait(d, t0) && t + 3 < SdmaWait(d, t0).end
  {
  }

  /** Every round before the last went on, and each served interrupt took a round
      of its own. */
  lemma {:induction false} SdmaWaitRounds(d: Device, t: nat)
    requires Live(d)
    ensures var r := SdmaWait(d, t);
      (forall j: nat :: RoundStart(t, j) + 3 < r.end ==> GoesOn(d, RoundStart(t, j)))
      && t + 3 * r.interrupts < r.end
    decreases if t < d.horizon then d.horizon - t else 0
  {
    if GoesOn(d, t) {
      SdmaWaitRounds(d, t + 3);
      var r := SdmaWait(d, t);
      forall j: nat | RoundStart(t, j) + 3 < r.end
        ensures GoesOn(d, RoundStart(t, j))
      {
        if j > 0 {
          assert RoundStart(t, j) == RoundStart(t + 3, j - 1);
        }
      }
    }
  }

  /** One more DMA interrupt on a read adds one full bounce buffer to the copies. */
  lemma ReadCopiesStep(k: nat)
    ensures ReadCopies(k + 1) == ReadCopies(k) + [ToBuffer(U32(U32(64 * k) * 512), SdmaBufferSize)]
  {
  }

  /** After `k` DMA interrupts of a read of `nblks` blocks, the block offset is
      64 * k and the blocks left are nblks - 64 * k, both in 32 bits, so offset and
      blocks left still add up to the request in 32 bits. */
  lemma ReadCountersStep(nblks: nat, k: nat)
    ensures U32(U32(64 * k) + 64) == U32(64 * (k + 1))
    ensures U32(U32(nblks - 64 * k) - 64) == U32(nblks - 64 * (k + 1))
    ensures U32(U32(64 * k) + U32(nblks - 64 * k)) == U32(nblks)
  {
    U32Add(64 * k, 64);
    U32Add(nblks - 64 * k, -64);
    U32Add(nblks - 64 * k, U32(64 * k));
    U32Add(64 * k, nblks - 64 * k);
    assert U32(64 * k) + U32(nblks - 64 * k) == U32(nblks - 64 * k) + U32(64 * k);
  }

  // ---- The copies and the outcome of sdma_access ----

  /** The bounce-buffer copies of the SDMA loop after `k` DMA interrupts: on a
      read, the whole bounce buffer copied out each time; on a write, the refills
      that follow the first one. */
  function SdmaServed(read: bool, nblks: nat, k: nat): (cs: seq<Event>)
    ensures read ==> |cs| == k
  {
    if read then ReadCopies(k) else Fills(nblks, FillBlocks(nblks, 0), k)
  }

  /** Every copy the SDMA loop makes when it ends as `r`: a read that ends with
      transfer complete copies out the blocks still counted as remaining last. */
  function SdmaCopies(read: bool, nblks: nat, r: DmaEnd): seq<Event>
  {
    SdmaServed(read, nblks, r.interrupts)
    + (if read && r.status == Success then [ReadTail(r.interrupts, U32(nblks - 64 * r.interrupts))] else [])
  }

  /** The response to the SDMA command reports an error the driver checks for:
      a bit of 0xCFF80000 after a read command, of 0xEFF80000 after a write. */
  predicate Rejects(r: CardRegisters.Response, read: bool)
  {
    r.r0 & (if read then SdCommands.ReadErrorMask else SdCommands.WriteErrorMask) != 0
  }

  /** How sdma_access went once its command was issued: the wait for command
      complete failed (at the read clock `at` after it), the response reported
      an error, or the SDMA loop ran and ended as `wait`. */
  datatype SdmaRun = CmdTimeout(at: nat) | Rejected(at: nat) | Ran(wait: DmaEnd)

  /** sdma_access from the wait for its command, started at read `t`, with `resp`
      in the Response registers once the command is done. */
  function SdmaPhase(d: Device, t: nat, resp: CardRegisters.Response, read: bool): (run: SdmaRun)
    requires Live(d)
  {
    var e := PioRuns.WaitEnd(d, CmdComplete, t);
    if !PioRuns.WaitOk(d, CmdComplete, t) then CmdTimeout(e)
    else if Rejects(resp, read) then Rejected(e)
    else Ran(SdmaWait(d, e))
  }

  /** The status sdma_access returns after `run`. */
  function SdmaStatus(run: SdmaRun): IoStatus
  {
    match run
    case CmdTimeout(_) => Timeout
    case Rejected(_) => Error
    case Ran(w) => w.status
  }

  /** The read clock after `run`. */
  function SdmaEnd(run: SdmaRun): nat
  {
    match run
    case CmdTimeout(e) => e
    case Rejected(e) => e
    case Ran(w) => w.end
  }

  /** sdma_access succeeds exactly when its command completed, the response
      reported no error, and the loop saw transfer complete before an error bit
      or the deadline; it times out when the command wait fails or a sleep
      reaches its deadline, and fails otherwise on an error bit or the response;
      it never reports a missing card. */
  lemma SdmaPhaseMeaning(d: Device, t: nat, resp: CardRegisters.Response, read: bool)
    requires Live(d)
    ensures var run := SdmaPhase(d, t, resp, read);
      var e := PioRuns.WaitEnd(d, CmdComplete, t);
      (SdmaStatus(run) == Success <==>
        PioRuns.WaitOk(d, CmdComplete, t) && !Rejects(resp, read) && SdmaWait(d, e).status == Success)
      && (SdmaStatus(run) == Success ==>
            SdmaEnd(run) >= e + 3 && AnyOf(d.intStatus(SdmaEnd(run) - 1), XferComplete))
      && (SdmaStatus(run) == Timeout ==>
            !PioRuns.WaitOk(d, CmdComplete, t) || d.timedOut(SdmaEnd(run) - 1))
      && (SdmaStatus(run) == Error ==>
            PioRuns.WaitOk(d, CmdComplete, t)
            && (Rejects(resp, read) || Errored(d.intStatus(SdmaEnd(run) - 1))))
      && SdmaStatus(run) != NoMedia
      && SdmaEnd(run) >= e
  {
    SdmaWaitEnds(d, PioRuns.WaitEnd(d, CmdComplete, t));
  }

  /** sdma_access never reports a missing card. */
  lemma SdmaNeverNoMedia(d: Device, t: nat, resp: CardRegisters.Response, read: bool)
    requires Live(d)
    ensures SdmaStatus(SdmaPhase(d, t, resp, read)) != NoMedia
  {
    SdmaPhaseMeaning(d, t, resp, read);
  }

  /** After a successful SDMA read in which the controller interrupted at most
      once per full bounce buffer of a request below 4 GiB, the copies out of the
      bounce buffer cover the request exactly, in order: copy `i` starts at
      `i * 32768` and the last one ends at `nblks * 512`. */
  lemma SdmaReadCovers(nblks: nat, r: DmaEnd)
    requires r.status == Success && 64 * r.interrupts <= nblks && nblks * 512 < Two32
    ensures var cs := SdmaCopies(true, nblks, r);
      |cs| == r.interrupts + 1
      && (forall i :: 0 <= i < |cs| ==> cs[i].ToBuffer? && cs[i].offset == i * SdmaBufferSize)
      && cs[|cs| - 1].offset + cs[|cs| - 1].length == nblks * 512
  {
    ReadCopiesTile(r.interrupts, nblks);
    assert U32(nblks - 64 * r.interrupts) == nblks - 64 * r.interrupts;
  }

  /** The copies into the bounce buffer of an SDMA write below 4 GiB, the first
      one included, never read past the request and each starts where the one
      before ended, from byte 0 on. */
  lemma SdmaWriteFills(nblks: nat, r: DmaEnd)
    requires nblks * 512 < Two32
    ensures var cs := Fills(nblks, 0, 1) + SdmaCopies(false, nblks, r);
      |cs| == r.interrupts + 1
      && cs[0].offset == 0
      && (forall i :: 0 <= i < |cs| ==> cs[i].FromBuffer? && cs[i].offset + cs[i].length <= nblks * 512)
      && (forall i :: 0 <= i < |cs| - 1 ==> cs[i + 1].offset == cs[i].offset + cs[i].length)
  {
    FillsContiguous(nblks, 0, r.interrupts + 1);
    assert SdmaCopies(false, nblks, r) == Fills(nblks, FillBlocks(nblks, 0), r.interrupts);
    assert Fills(nblks, 0, 1) + SdmaCopies(false, nblks, r) == Fills(nblks, 0, r.interrupts + 1);
  }

  /** Each SDMA attempt `runs[i]` is the one SdmaPhase describes from the read
      clock and command count of `starts[i]`, where it started. */
  ghost predicate AttemptsOf(d: Device, runs: seq<SdmaRun>, starts: seq<(nat, nat, bool)>, read: bool)
    requires Live(d)
  {
    |runs| == |starts|
    && forall i :: 0 <= i < |runs| ==> runs[i] == SdmaPhase(d, starts[i].0, d.response(starts[i].1 + 1), read)
  }

  /** Every attempt before the last timed out. */
  predicate RetriedOnTimeout(runs: seq<SdmaRun>)
  {
    forall i :: 0 <= i < |runs| - 1 ==> SdmaStatus(runs[i]) == Timeout
  }

  /** A timed-out attempt made before the attempts `runs`. */
  lemma RetriedCons(run: SdmaRun, runs: seq<SdmaRun>)
    requires RetriedOnTimeout(runs) && (runs != [] ==> SdmaStatus(run) == Timeout)
    ensures RetriedOnTimeout([run] + runs)
  {
    var rs := [run] + runs;
    forall i | 0 < i < |rs| - 1
      ensures SdmaStatus(rs[i]) == Timeout
    {
      assert rs[i] == runs[i - 1];
    }
  }
}
