/**
 * What doAsyncReadWrite does with a request when SDMA is off: the PIO routine
 * runs it cuts the request into, and how far it gets through them, as
 * functions of the hardware.
 */
module Requests {
  import opened Platform
  import opened Hardware
  import opened Transfer
  import opened PioRuns

  /** The PIO transfers of a request of `nblks` blocks from `block`: multi-block
      ones of at most 2048 blocks when the request has more than one block and
      multi-block transfers are compiled in, otherwise one per block. */
  function Plan(write: bool, multiblock: bool, block: nat, nblks: nat): (ts: seq<Event>)
    ensures Uniform(ts, write, nblks > 1 && multiblock)
  {
    PlanFromUniform(write, nblks > 1 && multiblock, block, nblks, 0);
    if nblks > 1 && multiblock then MultiChunks(write, block, nblks, 0) else SingleSteps(write, block, nblks, 0)
  }

  /** The transfers still to run once `done` blocks are through. */
  function PlanFrom(write: bool, multi: bool, block: nat, nblks: nat, done: nat): (ts: seq<Event>)
    requires done <= nblks
    ensures Uniform(ts, write, multi)
  {
    PlanFromUniform(write, multi, block, nblks, done);
    if multi then MultiChunks(write, block, nblks, done) else SingleSteps(write, block, nblks, done)
  }

  /** Every transfer of a plan is a transfer in the request's direction, of the
      plan's kind. */
  predicate Uniform(ts: seq<Event>, write: bool, multi: bool)
  {
    Transfers(ts) && forall i :: 0 <= i < |ts| ==> ts[i].write == write && ts[i].multi == multi
  }

  /** Every event of `ts` is a PIO routine run. */
  predicate Transfers(ts: seq<Event>)
  {
    forall i :: 0 <= i < |ts| ==> ts[i].Transfer?
  }

  lemma {:induction false} PlanFromUniform(write: bool, multi: bool, block: nat, nblks: nat, done: nat)
    requires done <= nblks
    ensures Uniform(if multi then MultiChunks(write, block, nblks, done) else SingleSteps(write, block, nblks, done), write, multi)
    decreases nblks - done
  {
    if done < nblks {
      var b := if multi then ChunkSize(nblks - done) else 1;
      var first := Transfer(write, multi, U32(block + done), b, done);
      var rest := if multi then MultiChunks(write, block, nblks, done + b) else SingleSteps(write, block, nblks, done + b);
      assert (if multi then MultiChunks(write, block, nblks, done) else SingleSteps(write, block, nblks, done)) == [first] + rest;
      PlanFromUniform(write, multi, block, nblks, done + b);
    }
  }

  /** The plan of a request is its transfers from block 0 on: it tiles the
      request (Tiles: consecutive, 1 to 2048 blocks each, from offset 0 to
      `nblks`, each at card block `block + offset` in 32 bits), and its
      transfers are all of one kind. */
  lemma PlanTiles(write: bool, multiblock: bool, block: nat, nblks: nat)
    ensures var multi := nblks > 1 && multiblock;
      Plan(write, multiblock, block, nblks) == PlanFrom(write, multi, block, nblks, 0)
      && Tiles(Plan(write, multiblock, block, nblks), block, nblks, 0)
      && Uniform(Plan(write, multiblock, block, nblks), write, multi)
      && (!multi ==> |Plan(write, multiblock, block, nblks)| == nblks)
  {
    var multi := nblks > 1 && multiblock;
    if multi {
      MultiChunksTile(write, block, nblks, 0);
    } else {
      SingleStepsTile(write, block, nblks, 0);
    }
  }

  /** The next transfer of a plan, and the plan after it. */
  lemma PlanStep(write: bool, multi: bool, block: nat, nblks: nat, done: nat)
    requires done < nblks
    ensures var b := if multi then ChunkSize(nblks - done) else 1;
      done + b <= nblks
      && PlanFrom(write, multi, block, nblks, done)
         == [Transfer(write, multi, U32(block + done), b, done)] + PlanFrom(write, multi, block, nblks, done + b)
  {
  }

  /** The transfer loop of doAsyncReadWrite, at read `t`, has run transfers
      `ran` of the plan of a request started at read `t0`; it is `done` blocks
      in, with its 32-bit counters `blk` (the next card block) and `n` (the
      blocks left). */
  ghost predicate Going(d: Device, space: bv32, write: bool, multiblock: bool, block: nat, nblks: nat,
                        t0: nat, ran: seq<Event>, done: nat, blk: nat, n: nat, t: nat)
  {
    Live(d) && block < Two32 && nblks < Two32 && done <= nblks && n == nblks - done && blk == U32(block + done)
    && Reaches(d, space, Plan(write, multiblock, block, nblks), t0, ran,
               PlanFrom(write, nblks > 1 && multiblock, block, nblks, done), t)
  }

  /** One pass of the transfer loop: the transfer `e` it builds from `blk`,
      `n` and blk - block is the next one of the plan, and when `e` ends at
      read `t'` with status `st` the loop, with its counters moved on to
      `ran'`, `done'`, `blk'` and `n'`, goes on with the rest of the plan or has
      ended with `e`. */
  lemma PassAdvances(d: Device, space: bv32, write: bool, multiblock: bool, block: nat, nblks: nat, t0: nat,
                     ran: seq<Event>, done: nat, blk: nat, n: nat, t: nat, e: Event, st: IoStatus, t': nat,
                     ran': seq<Event>, done': nat, blk': nat, n': nat)
    requires Going(d, space, write, multiblock, block, nblks, t0, ran, done, blk, n, t) && n > 0
    requires var multi := nblks > 1 && multiblock;
      e == Transfer(write, multi, blk, if multi then ChunkSize(n) else 1, U32(blk - block))
    requires st == RoutineRun(d, space, e, t).status && t' == RoutineRun(d, space, e, t).end
    requires ran' == ran + [e] && done' == done + e.count && blk' == U32(blk + e.count) && n' == n - e.count
    ensures n' < n
    ensures st == Success ==> Going(d, space, write, multiblock, block, nblks, t0, ran', done', blk', n', t')
    ensures st != Success ==> RunLoop(d, space, Plan(write, multiblock, block, nblks), t0) == LoopEnd(ran', st, t')
  {
    var multi := nblks > 1 && multiblock;
    NextIsPlanned(write, multi, block, nblks, done, blk, n, e, done');
    ReachesNext(d, space, Plan(write, multiblock, block, nblks), t0, ran, PlanFrom(write, multi, block, nblks, done), e,
                PlanFrom(write, multi, block, nblks, done'), t);
    if st == Success {
      assert blk' == U32(block + done') && n' == nblks - done';
      assert Reaches(d, space, Plan(write, multiblock, block, nblks), t0, ran', PlanFrom(write, multi, block, nblks, done'), t');
    }
  }

  /** The transfer the loop builds from its counters is the next one of the
      plan, after which the loop is `done'` blocks in. */
  lemma NextIsPlanned(write: bool, multi: bool, block: nat, nblks: nat, done: nat, blk: nat, n: nat, e: Event, done': nat)
    requires block < Two32 && nblks < Two32 && 0 < n == nblks - done && blk == U32(block + done)
    requires e == Transfer(write, multi, blk, if multi then ChunkSize(n) else 1, U32(blk - block))
    requires done' == done + e.count
    ensures 0 < e.count <= n && done' <= nblks && U32(blk + e.count) == U32(block + done')
    ensures PlanFrom(write, multi, block, nblks, done) == [e] + PlanFrom(write, multi, block, nblks, done')
  {
    var b := if multi then ChunkSize(nblks - done) else 1;
    NextOffset(block, done, b);
    assert e == Transfer(write, multi, U32(block + done), b, done);
    PlanStep(write, multi, block, nblks, done);
  }

  /** A loop with nothing left of its plan has run all of it, successfully. */
  lemma PlanDone(d: Device, space: bv32, write: bool, multiblock: bool, block: nat, nblks: nat,
                 t0: nat, ran: seq<Event>, done: nat, blk: nat, n: nat, t: nat)
    requires Going(d, space, write, multiblock, block, nblks, t0, ran, done, blk, n, t) && n == 0
    ensures RunLoop(d, space, Plan(write, multiblock, block, nblks), t0) == LoopEnd(ran, Success, t)
  {
    assert PlanFrom(write, nblks > 1 && multiblock, block, nblks, nblks) == [];
    assert ran + [] == ran;
  }

  /** The counters of the loop in 32 bits: blk - block is the offset `done`, and
      blk + b is block + done + b. */
  lemma NextOffset(block: nat, done: nat, b: nat)
    requires block < Two32 && done < Two32
    ensures U32(U32(block + done) - block) == done
    ensures U32(U32(block + done) + b) == U32(block + (done + b))
  {
    U32Add(block + done, -(block as int));
    U32Add(block + done, b);
  }

  /** The status reads of one PIO routine run, started at read `t`, as the
      routine it stands for does them. */
  function RoutineRun(d: Device, space: bv32, e: Event, t: nat): PioRun
    requires Live(d) && e.Transfer?
  {
    if !e.write then
      (if e.multi then MultiReadRun(d, t + 1, e.count) else SingleReadRun(d, t + 1))
    else if e.multi then MultiWriteRun(d, space, t, e.count)
    else SingleWriteRun(d, t)
  }

  /** A PIO routine reports success or an error, never a timeout or a missing medium. */
  lemma RoutineStatus(d: Device, space: bv32, e: Event, t: nat)
    requires Live(d) && e.Transfer?
    ensures RoutineRun(d, space, e, t).status == Success || RoutineRun(d, space, e, t).status == Error
  {
    if !e.write {
      if e.multi { MultiReadRunMeaning(d, t + 1, e.count); } else { SingleReadRunMeaning(d, t + 1); }
    } else {
      if e.multi { MultiWriteRunMeaning(d, space, t, e.count); } else { SingleWriteRunMeaning(d, t); }
    }
  }

  /** How far the transfer loop got: the transfers it ran, its status, and the
      read clock after them. */
  datatype LoopEnd = LoopEnd(done: seq<Event>, status: IoStatus, end: nat)

  /** The transfer loop of doAsyncReadWrite over transfers `ts` from read `t`:
      each transfer runs in turn, and the first that fails ends the loop with its
      status. */
  function RunLoop(d: Device, space: bv32, ts: seq<Event>, t: nat): LoopEnd
    requires Live(d) && Transfers(ts)
    decreases |ts|
  {
    if ts == [] then LoopEnd([], Success, t)
    else
      var run := RoutineRun(d, space, ts[0], t);
      if run.status != Success then LoopEnd([ts[0]], run.status, run.end)
      else
        var rest := RunLoop(d, space, ts[1..], run.end);
        LoopEnd([ts[0]] + rest.done, rest.status, rest.end)
  }

  /** The loop runs a prefix of its transfers: all of them when it succeeds,
      otherwise up to and including the one that failed, and it then reports an
      error. It never reports a timeout or a missing medium. */
  lemma {:induction false} RunLoopMeaning(d: Device, space: bv32, ts: seq<Event>, t: nat)
    requires Live(d) && Transfers(ts)
    ensures var r := RunLoop(d, space, ts, t);
      |r.done| <= |ts| && r.done == ts[..|r.done|]
      && (r.status == Success || r.status == Error)
      && (r.status == Success ==> r.done == ts)
      && (r.status == Error ==> r.done != [])
    decreases |ts|
  {
    if ts != [] {
      RoutineStatus(d, space, ts[0], t);
      var run := RoutineRun(d, space, ts[0], t);
      if run.status == Success {
        RunLoopMeaning(d, space, ts[1..], run.end);
        var rest := RunLoop(d, space, ts[1..], run.end);
        assert ts == [ts[0]] + ts[1..];
        assert ([ts[0]] + rest.done) == [ts[0]] + ts[1..][..|rest.done|];
      }
    }
  }

  /** The loop over `ts0` from read `t0` has run `ran` and has `ts` left at read `t`. */
  ghost predicate Reaches(d: Device, space: bv32, ts0: seq<Event>, t0: nat, ran: seq<Event>, ts: seq<Event>, t: nat)
    requires Live(d) && Transfers(ts0) && Transfers(ts)
  {
    var r := RunLoop(d, space, ts, t);
    RunLoop(d, space, ts0, t0) == LoopEnd(ran + r.done, r.status, r.end)
  }

  /** One more transfer: after a success the loop goes on with the rest; after
      a failure it has ended with that transfer. */
  lemma ReachesNext(d: Device, space: bv32, ts0: seq<Event>, t0: nat, ran: seq<Event>, ts: seq<Event>, e: Event, rest: seq<Event>, t: nat)
    requires Live(d) && Transfers(ts0) && Transfers(ts) && ts == [e] + rest
    requires Reaches(d, space, ts0, t0, ran, ts, t)
    ensures var run := RoutineRun(d, space, e, t);
      (run.status == Success ==> Reaches(d, space, ts0, t0, ran + [e], rest, run.end))
      && (run.status != Success ==> RunLoop(d, space, ts0, t0) == LoopEnd(ran + [e], run.status, run.end))
  {
    var run := RoutineRun(d, space, e, t);
    assert ts[0] == e && ts[1..] == rest;
    if run.status == Success {
      var r := RunLoop(d, space, rest, run.end);
      assert ran + ([e] + r.done) == (ran + [e]) + r.done;
    }
  }

  /** A request whose loop succeeded was moved whole: the transfers it ran tile
      the request from block 0 to `nblks`. */
  lemma CompletedCoversRequest(d: Device, space: bv32, write: bool, multiblock: bool, block: nat, nblks: nat, t: nat)
    requires Live(d)
    ensures Uniform(Plan(write, multiblock, block, nblks), write, nblks > 1 && multiblock)
    ensures var r := RunLoop(d, space, Plan(write, multiblock, block, nblks), t);
      r.status == Success ==> Tiles(r.done, block, nblks, 0)
  {
    PlanTiles(write, multiblock, block, nblks);
    RunLoopMeaning(d, space, Plan(write, multiblock, block, nblks), t);
  }

  /** A PIO routine run that succeeds moves all its blocks: the transfer's
      count for a multi-block one, one block otherwise. */
  lemma RoutineBlocks(d: Device, space: bv32, e: Event, t: nat)
    requires Live(d) && e.Transfer?
    ensures RoutineRun(d, space, e, t).status == Success ==> RoutineRun(d, space, e, t).blocks == if e.multi then e.count else 1
  {
    if !e.write {
      if e.multi { MultiReadRunMeaning(d, t + 1, e.count); } else { SingleReadRunMeaning(d, t + 1); }
    } else {
      if e.multi { MultiWriteRunMeaning(d, space, t, e.count); } else { SingleWriteRunMeaning(d, t); }
    }
  }

  // ---- The data the transfer loop moves ----

  /** The data path of the PIO routines: the request buffer, the count of words
      read from the data port so far, the words written to it so far, and the
      512-byte block buffer the single-block reads go through. */
  datatype Data = Data(bytes: seq<bv8>, fromPort: nat, toPort: seq<bv32>, buff: seq<bv8>)

  /** The data path after the routine run `e` moved `k` blocks, the write
      routines staging through a block that holds `stale` at first: a write
      sends the staged words of the request buffer from block `e.offset` on; a
      multi-block read puts the next data port blocks at block `e.offset` on; a
      single-block read copies the block buffer, refilled only when its block
      arrived, to byte `e.offset * 512` in 32 bits. */
  function RunData(d: Device, e: Event, k: nat, m: Data, stale: seq<bv8>): Data
    requires e.Transfer? && |stale| == 512
  {
    if e.write then WriteData(e, k, m, stale) else ReadData(d, e, k, m)
  }

  /** The data path after the write routine run `e` sent `k` blocks: the
      words staged from the request buffer at block `e.offset` on follow the
      words already written. */
  function WriteData(e: Event, k: nat, m: Data, stale: seq<bv8>): Data
    requires e.Transfer? && |stale| == 512
  {
    m.(toPort := m.toPort + StagedWords(m.bytes, e.offset, k, stale))
  }

  /** The data path after the read routine run `e` received `k` blocks. */
  function ReadData(d: Device, e: Event, k: nat, m: Data): Data
    requires e.Transfer?
  {
    if e.multi then m.(bytes := ReadInto(m.bytes, d, m.fromPort, e.offset, k), fromPort := m.fromPort + 128 * k)
    else
      var next := if k == 1 then PortBlock(d, m.fromPort, 0) else m.buff;
      m.(bytes := Overwrite(m.bytes, U32(e.offset * 512), next), fromPort := m.fromPort + 128 * k, buff := next)
  }

  /** The data path after the transfer loop over `ts` from read `t`, starting
      from `m`: the run of each transfer in turn, up to and including the first
      that fails. */
  function LoopData(d: Device, space: bv32, ts: seq<Event>, t: nat, m: Data, stale: seq<bv8>): Data
    requires Live(d) && Transfers(ts) && |stale| == 512
    decreases |ts|
  {
    if ts == [] then m
    else
      var run := RoutineRun(d, space, ts[0], t);
      var next := RunData(d, ts[0], run.blocks, m, stale);
      if run.status != Success then next else LoopData(d, space, ts[1..], run.end, next, stale)
  }

  /** The loop over the plan of a request, started at read `t0` with the data
      path `m0`, is `done` blocks in at read `t` with the data path `m`: the rest
      of the plan from there leaves the data path as the whole loop does. */
  ghost predicate Carries(d: Device, space: bv32, write: bool, multiblock: bool, block: nat, nblks: nat,
                          t0: nat, m0: Data, done: nat, t: nat, m: Data, stale: seq<bv8>)
    requires Live(d) && done <= nblks && |stale| == 512
  {
    LoopData(d, space, Plan(write, multiblock, block, nblks), t0, m0, stale)
      == LoopData(d, space, PlanFrom(write, nblks > 1 && multiblock, block, nblks, done), t, m, stale)
  }

  /** The data of one pass of the transfer loop: after the next transfer `e`
      of the plan moves the data path to `m'`, the rest of the plan carries on
      from there, or, when `e` failed, the loop has left `m'`. */
  lemma PassCarries(d: Device, space: bv32, write: bool, multiblock: bool, block: nat, nblks: nat, t0: nat, m0: Data,
                    done: nat, blk: nat, n: nat, t: nat, m: Data, e: Event, st: IoStatus, t': nat, done': nat, m': Data,
                    stale: seq<bv8>)
    requires Live(d) && block < Two32 && nblks < Two32 && 0 < n == nblks - done && blk == U32(block + done) && |stale| == 512
    requires Carries(d, space, write, multiblock, block, nblks, t0, m0, done, t, m, stale)
    requires var multi := nblks > 1 && multiblock;
      e == Transfer(write, multi, blk, if multi then ChunkSize(n) else 1, U32(blk - block))
    requires st == RoutineRun(d, space, e, t).status && t' == RoutineRun(d, space, e, t).end && done' == done + e.count
    requires m' == RunData(d, e, RoutineRun(d, space, e, t).blocks, m, stale)
    ensures done' <= nblks
    ensures st == Success ==> Carries(d, space, write, multiblock, block, nblks, t0, m0, done', t', m', stale)
    ensures st != Success ==> LoopData(d, space, Plan(write, multiblock, block, nblks), t0, m0, stale) == m'
  {
    var multi := nblks > 1 && multiblock;
    NextIsPlanned(write, multi, block, nblks, done, blk, n, e, done');
    DataNext(d, space, e, PlanFrom(write, multi, block, nblks, done'), t, m, stale);
  }

  /** The data path after the loop over `e` then `rest`: what `e`'s run leaves,
      when it fails; otherwise what the loop over `rest` leaves from there. */
  lemma DataNext(d: Device, space: bv32, e: Event, rest: seq<Event>, t: nat, m: Data, stale: seq<bv8>)
    requires Live(d) && e.Transfer? && Transfers(rest) && |stale| == 512
    ensures var run := RoutineRun(d, space, e, t);
      var next := RunData(d, e, run.blocks, m, stale);
      LoopData(d, space, [e] + rest, t, m, stale) == if run.status != Success then next else LoopData(d, space, rest, run.end, next, stale)
  {
    assert ([e] + rest)[0] == e && ([e] + rest)[1..] == rest;
  }

  /** A loop over `e` then `rest` that succeeds ran `e` successfully first,
      then succeeded over `rest`, carrying the data path through `e`'s run. */
  lemma LoopFirst(d: Device, space: bv32, e: Event, rest: seq<Event>, t: nat, m: Data, stale: seq<bv8>)
    requires Live(d) && e.Transfer? && Transfers(rest) && |stale| == 512
    requires RunLoop(d, space, [e] + rest, t).status == Success
    ensures var run := RoutineRun(d, space, e, t);
      run.status == Success && RunLoop(d, space, rest, run.end).status == Success
      && LoopData(d, space, [e] + rest, t, m, stale) == LoopData(d, space, rest, run.end, RunData(d, e, run.blocks, m, stale), stale)
  {
    assert ([e] + rest)[0] == e && ([e] + rest)[1..] == rest;
  }

  /** A loop with nothing left of its plan has left the data path as it is. */
  lemma DataDone(d: Device, space: bv32, write: bool, multiblock: bool, block: nat, nblks: nat,
                 t0: nat, m0: Data, t: nat, m: Data, stale: seq<bv8>)
    requires Live(d) && |stale| == 512 && Carries(d, space, write, multiblock, block, nblks, t0, m0, nblks, t, m, stale)
    ensures LoopData(d, space, Plan(write, multiblock, block, nblks), t0, m0, stale) == m
  {
    assert PlanFrom(write, nblks > 1 && multiblock, block, nblks, nblks) == [];
  }

  /** The blocks a PIO routine run that succeeds moves: the transfer's count
      for a multi-block one, one block otherwise. */
  function Blocks(e: Event): nat
    requires e.Transfer?
  {
    if e.multi then e.count else 1
  }

  /** The data path after each transfer of `ts` in turn has moved all its
      blocks. */
  function Moves(d: Device, ts: seq<Event>, m: Data, stale: seq<bv8>): Data
    requires Transfers(ts) && |stale| == 512
    decreases |ts|
  {
    if ts == [] then m else Moves(d, ts[1..], RunData(d, ts[0], Blocks(ts[0]), m, stale), stale)
  }

  /** A transfer loop that succeeds leaves the data path as its transfers, each
      moving all its blocks, do. */
  lemma {:induction false} LoopMoves(d: Device, space: bv32, ts: seq<Event>, t: nat, m: Data, stale: seq<bv8>)
    requires Live(d) && Transfers(ts) && |stale| == 512
    requires RunLoop(d, space, ts, t).status == Success
    ensures LoopData(d, space, ts, t, m, stale) == Moves(d, ts, m, stale)
    decreases |ts|
  {
    if ts != [] {
      RoutineBlocks(d, space, ts[0], t);
      LoopMoves(d, space, ts[1..], RoutineRun(d, space, ts[0], t).end, RunData(d, ts[0], Blocks(ts[0]), m, stale), stale);
    }
  }

  /** The blocks of the next transfer of a plan with `n` blocks left. */
  function Chunk(multi: bool, n: nat): (b: nat)
    ensures b <= n || n == 0
    ensures n > 0 ==> b > 0
  {
    if multi then ChunkSize(n) else 1
  }

  /** The data path after each read of `ts` in turn, up to the first event
      that is not a transfer, has moved all its blocks. */
  function ReadMoves(d: Device, ts: seq<Event>, m: Data): Data
    decreases |ts|
  {
    if ts == [] || !ts[0].Transfer? then m else ReadMoves(d, ts[1..], ReadData(d, ts[0], Blocks(ts[0]), m))
  }

  /** The data path after each write of `ts` in turn, up to the first event
      that is not a transfer, has moved all its blocks. */
  function WriteMoves(ts: seq<Event>, m: Data, stale: seq<bv8>): Data
    requires |stale| == 512
    decreases |ts|
  {
    if ts == [] || !ts[0].Transfer? then m else WriteMoves(ts[1..], WriteData(ts[0], Blocks(ts[0]), m, stale), stale)
  }

  /** Transfers that are all reads move the data path as reads do, and ones that
      are all writes as writes do. */
  lemma {:induction false} MovesByDirection(d: Device, ts: seq<Event>, write: bool, multi: bool, m: Data, stale: seq<bv8>)
    requires Uniform(ts, write, multi) && |stale| == 512
    ensures !write ==> Moves(d, ts, m, stale) == ReadMoves(d, ts, m)
    ensures write ==> Moves(d, ts, m, stale) == WriteMoves(ts, m, stale)
    decreases |ts|
  {
    if ts != [] {
      assert ts[0].write == write;
      MovesByDirection(d, ts[1..], write, multi, RunData(d, ts[0], Blocks(ts[0]), m, stale), stale);
    }
  }

  /** The next transfer of a plan moves all the blocks it is for, and the plan
      goes on after it. */
  lemma PlanNext(write: bool, multi: bool, block: nat, nblks: nat, done: nat)
    requires done < nblks
    ensures var b := Chunk(multi, nblks - done);
      var e := Transfer(write, multi, U32(block + done), b, done);
      done < done + b <= nblks && Blocks(e) == b
      && PlanFrom(write, multi, block, nblks, done) == [e] + PlanFrom(write, multi, block, nblks, done + b)
  {
    PlanStep(write, multi, block, nblks, done);
  }

  /** Nothing is left of a plan once all its blocks are through. */
  lemma PlanEnd(write: bool, multi: bool, block: nat, nblks: nat)
    ensures PlanFrom(write, multi, block, nblks, nblks) == []
  {
  }

  /** A read request whose loop succeeded put data port block `j`, counted from
      the first word the loop read, at block `j` of the request buffer, for
      every block of the request, as one long read would; it read 128 words per
      block and wrote none. */
  lemma CompletedReadFills(d: Device, space: bv32, multiblock: bool, block: nat, nblks: nat, t: nat, m: Data, stale: seq<bv8>)
    requires Live(d) && |stale| == 512
    requires RunLoop(d, space, Plan(false, multiblock, block, nblks), t).status == Success
    ensures var r := LoopData(d, space, Plan(false, multiblock, block, nblks), t, m, stale);
      r.bytes == ReadInto(m.bytes, d, m.fromPort, 0, nblks) && r.fromPort == m.fromPort + 128 * nblks && r.toPort == m.toPort
  {
    var multi := nblks > 1 && multiblock;
    PlanTiles(false, multiblock, block, nblks);
    LoopMoves(d, space, Plan(false, multiblock, block, nblks), t, m, stale);
    MovesByDirection(d, Plan(false, multiblock, block, nblks), false, multi, m, stale);
    PlanTiling(false, multi, block, nblks, 0);
    ReadMovesFill(d, Plan(false, multiblock, block, nblks), 0, nblks, m);
  }

  /** Transfers `ts` that move blocks `done` to `nblks` in turn, each all
      the blocks it is for, which are one for a single-block transfer. */
  predicate Tiling(ts: seq<Event>, done: nat, nblks: nat)
    decreases |ts|
  {
    if ts == [] then done == nblks
    else
      ts[0].Transfer? && ts[0].offset == done && 0 < ts[0].count == Blocks(ts[0]) && done + ts[0].count <= nblks
      && Tiling(ts[1..], done + ts[0].count, nblks)
  }

  /** The plan from `done` blocks on moves blocks `done` to `nblks` in turn. */
  lemma {:induction false} PlanTiling(write: bool, multi: bool, block: nat, nblks: nat, done: nat)
    requires done <= nblks
    ensures Tiling(PlanFrom(write, multi, block, nblks, done), done, nblks)
    decreases nblks - done
  {
    if done < nblks {
      var b := Chunk(multi, nblks - done);
      var e := Transfer(write, multi, U32(block + done), b, done);
      var rest := PlanFrom(write, multi, block, nblks, done + b);
      PlanNext(write, multi, block, nblks, done);
      PlanTiling(write, multi, block, nblks, done + b);
      assert ([e] + rest)[0] == e && ([e] + rest)[1..] == rest;
    } else {
      PlanEnd(write, multi, block, nblks);
    }
  }

  /** The data path after a read of `k` blocks, from the data port word the
      path is at, into the buffer from block `offset` on: 128 words read per
      block, none written. */
  function ReadFill(d: Device, m: Data, offset: nat, k: nat): Data
  {
    m.(bytes := ReadInto(m.bytes, d, m.fromPort, offset, k), fromPort := m.fromPort + 128 * k)
  }

  /** What a data path has moved: the request buffer and the data port words
      read and written so far. */
  function Path(m: Data): (seq<bv8>, nat, seq<bv32>)
  {
    (m.bytes, m.fromPort, m.toPort)
  }

  /** Reads that move blocks `done` to `nblks` in turn leave the data path as
      one long read of those blocks would. */
  lemma {:induction false} ReadMovesFill(d: Device, ts: seq<Event>, done: nat, nblks: nat, m: Data)
    requires Tiling(ts, done, nblks)
    ensures Path(ReadMoves(d, ts, m)) == Path(ReadFill(d, m, done, nblks - done))
    decreases |ts|
  {
    if ts != [] {
      var b := ts[0].count;
      var m' := ReadFirst(d, ts, done, nblks, m);
      ReadMovesFill(d, ts[1..], done + b, nblks, m');
      ReadFillChain(d, m, done, b, nblks - (done + b));
    } else {
      assert ReadInto(m.bytes, d, m.fromPort, done, 0) == m.bytes;
    }
  }

  /** The first read of `ts` reads its blocks from the data port word the path
      is at, and the rest go on from the data path `m'` it leaves. */
  lemma ReadFirst(d: Device, ts: seq<Event>, done: nat, nblks: nat, m: Data) returns (m': Data)
    requires ts != [] && Tiling(ts, done, nblks)
    ensures Tiling(ts[1..], done + ts[0].count, nblks) && done + ts[0].count <= nblks
    ensures ReadMoves(d, ts, m) == ReadMoves(d, ts[1..], m')
    ensures Path(m') == Path(ReadFill(d, m, done, ts[0].count))
  {
    ReadStep(d, ts[0], m);
    m' := ReadData(d, ts[0], ts[0].count, m);
  }

  /** Reading `c` blocks and then `k` more from where they stopped reads
      `c + k` blocks. */
  lemma ReadFillChain(d: Device, m: Data, offset: nat, c: nat, k: nat)
    ensures Path(ReadFill(d, ReadFill(d, m, offset, c), offset + c, k)) == Path(ReadFill(d, m, offset, c + k))
  {
    ReadIntoChain(m.bytes, d, m.fromPort, offset, c, k);
  }

  /** One read of the plan that moved all its blocks reads them into the buffer
      from the data port word it started at. */
  lemma ReadStep(d: Device, e: Event, m: Data)
    requires e.Transfer? && (!e.multi ==> e.count == 1)
    ensures Path(ReadData(d, e, e.count, m)) == Path(ReadFill(d, m, e.offset, e.count))
  {
    if !e.multi {
      assert (e.offset + 1 - 1) * 512 == e.offset * 512;
      assert m.fromPort + 128 * 0 == m.fromPort;
    }
  }

  /** A write request whose loop succeeded, on a buffer that holds all its
      blocks within 32-bit offsets, wrote to the data port, after the words
      already there, exactly the request's bytes, in order, and read nothing
      from it. */
  lemma CompletedWriteSends(d: Device, space: bv32, multiblock: bool, block: nat, nblks: nat, t: nat, m: Data, stale: seq<bv8>)
    requires Live(d) && |stale| == 512 && nblks * 512 <= |m.bytes| && nblks * 512 <= Two32
    requires RunLoop(d, space, Plan(true, multiblock, block, nblks), t).status == Success
    ensures var r := LoopData(d, space, Plan(true, multiblock, block, nblks), t, m, stale);
      r.bytes == m.bytes && r.fromPort == m.fromPort
      && |m.toPort| <= |r.toPort| && r.toPort[..|m.toPort|] == m.toPort && Bytes(r.toPort[|m.toPort|..]) == m.bytes[..nblks * 512]
  {
    PlanTiles(true, multiblock, block, nblks);
    LoopMoves(d, space, Plan(true, multiblock, block, nblks), t, m, stale);
    MovesByDirection(d, Plan(true, multiblock, block, nblks), true, nblks > 1 && multiblock, m, stale);
    assert m.toPort[..|m.toPort|] == m.toPort && m.toPort[|m.toPort|..] == [] && m.bytes[..0] == [];
    PlanTiling(true, nblks > 1 && multiblock, block, nblks, 0);
    WriteMovesSend(Plan(true, multiblock, block, nblks), 0, nblks, m.toPort, m, stale);
  }

  /** Writes that move blocks `done` to `nblks` in turn, on a buffer that
      holds all the blocks within 32-bit offsets, carry the words of the first
      `done` blocks on to those of all `nblks`, and leave the buffer and the
      reads as they are. */
  lemma {:induction false} WriteMovesSend(ts: seq<Event>, done: nat, nblks: nat, out0: seq<bv32>, m: Data, stale: seq<bv8>)
    requires Tiling(ts, done, nblks) && |stale| == 512 && nblks * 512 <= |m.bytes| && nblks * 512 <= Two32
    requires Sent(out0, m.toPort, m.bytes, done)
    ensures var r := WriteMoves(ts, m, stale);
      r.bytes == m.bytes && r.fromPort == m.fromPort && Sent(out0, r.toPort, m.bytes, nblks)
    decreases |ts|
  {
    if ts != [] {
      var m' := WriteFirst(ts, done, nblks, out0, m, stale);
      WriteMovesSend(ts[1..], done + ts[0].count, nblks, out0, m', stale);
    }
  }

  /** The data port words `out`, from the words `out0` on, are those of the
      first `done` blocks of `bytes`. */
  predicate Sent(out0: seq<bv32>, out: seq<bv32>, bytes: seq<bv8>, done: nat)
  {
    |out0| <= |out| && out[..|out0|] == out0 && done * 512 <= |bytes| && Bytes(out[|out0|..]) == bytes[..done * 512]
  }

  /** The first write of `ts`, at block `done`, sends its blocks of the buffer
      after those sent so far, and the rest go on from the data path `m'` it
      leaves. */
  lemma WriteFirst(ts: seq<Event>, done: nat, nblks: nat, out0: seq<bv32>, m: Data, stale: seq<bv8>) returns (m': Data)
    requires ts != [] && Tiling(ts, done, nblks) && |stale| == 512 && nblks * 512 <= |m.bytes| && nblks * 512 <= Two32
    requires Sent(out0, m.toPort, m.bytes, done)
    ensures Tiling(ts[1..], done + ts[0].count, nblks)
    ensures WriteMoves(ts, m, stale) == WriteMoves(ts[1..], m', stale)
    ensures m'.bytes == m.bytes && m'.fromPort == m.fromPort && Sent(out0, m'.toPort, m.bytes, done + ts[0].count)
  {
    var b := ts[0].count;
    m' := WriteData(ts[0], b, m, stale);
    StagedWordsAreBuffer(m.bytes, done, b, stale);
    SentMore(out0, m.toPort, StagedWords(m.bytes, done, b, stale), m.bytes, done, b);
  }

  /** Words sent for the first `done` blocks, followed by the words of the next
      `b` blocks, are the words sent for the first `done + b`. */
  lemma SentMore(out0: seq<bv32>, out: seq<bv32>, more: seq<bv32>, bytes: seq<bv8>, done: nat, b: nat)
    requires Sent(out0, out, bytes, done) && (done + b) * 512 <= |bytes|
    requires Bytes(more) == bytes[done * 512..(done + b) * 512]
    ensures Sent(out0, out + more, bytes, done + b)
  {
    var next := out + more;
    assert next[..|out0|] == out0;
    assert next[|out0|..] == out[|out0|..] + more;
    BytesAppend(out[|out0|..], more);
    assert bytes[..done * 512] + bytes[done * 512..(done + b) * 512] == bytes[..(done + b) * 512];
  }
}
