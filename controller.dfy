/**
 * The VoodooSDHC driver object: its fields, the register block it drives, and
 * its operations — command issue, resets, clock and power set-up, card
 * identification, card initialisation, presence tracking, the status waits, the
 * PIO and SDMA block transfers and doAsyncReadWrite.
 *
 * setup() maps device memory index 0 for every slot, so every PCIRegP[slot]
 * points at the same registers: the model has one register block, and only
 * SDCIDReg keeps an entry per slot.
 */
module Controller {
  import opened RegisterMap
  import opened SdCommands
  import opened Platform
  import opened CommandWord
  import opened Hardware
  import opened Transfer
  import opened ClockPower
  import opened Initialization
  import opened PioRuns
  import opened SdmaRuns
  import opened SdmaRetries
  import opened Media
  import opened Requests
  import CardRegisters
  import CsdRegister

  /** `k` full resets, as setup() issues them on a slot without a card. */
  function FullResets(k: nat): (r: seq<Event>)
    ensures |r| == k && forall i :: 0 <= i < k ==> r[i] == ResetIssued(FULL_RESET)
  {
    if k == 0 then [] else FullResets(k - 1) + [ResetIssued(FULL_RESET)]
  }

  /** The CID entry of a slot no card has been identified in (the object is zero-filled). */
  const BlankCid: CardRegisters.Cid := CardRegisters.Cid(0, 0, [0, 0, 0, 0, 0, 0], [0, 0], 0, [0, 0])

  /** The argument of a block command, as the 32-bit register value. */
  function AddressArg(highCapacity: bool, block: nat): bv32
  {
    CardAddress(highCapacity, block) as bv32
  }

  /** A count stored into a 32-bit register. */
  function Word32(n: nat): bv32
  {
    U32(n) as bv32
  }

  /** A count stored into a 16-bit register (BlockCount): its low 16 bits. */
  function Low16(n: nat): bv16
  {
    (n % 0x1_0000) as bv16
  }

  /** The transfer mode readBlockMulti_pio writes before its command. */
  function PioReadMode(defs: HostDefs): bv16
  {
    defs.trnsRead | defs.trnsMulti | defs.trnsBlkCntEn | defs.trnsAcmd12
  }

  /** The interrupt bits the PIO reads clear before they start. */
  const ReadAcks: bv16 := BuffReadReady | XferComplete | CmdComplete
  /** The interrupt bits the PIO writes clear before they start and after they end. */
  const WriteAcks: bv16 := BuffWriteReady | XferComplete | CmdComplete

  /** The resets issued before every transfer unless NO_RESET_WAR is defined. */
  function WarResets(cfg: Config): seq<Event>
  {
    if cfg.noResetWar then [] else [ResetIssued(CMD_RESET), ResetIssued(DAT_RESET)]
  }

  /** The count of commands issued once a cardInit whose operating-condition
      phase was `p` has ended: up to its last APP_OP_COND for a card that never
      got ready; for a ready one four more (ALL_SEND_CID, SEND_RELATIVE_ADDR,
      SEND_CSD, SELECT_CARD), two for the bus-width switch and one for the
      high-speed switch when they are compiled in. */
  function InitIssued(cfg: Config, p: OpCond): nat
  {
    if p.ready then p.last + 4 + (if cfg.wideBus then 2 else 0) + (if cfg.highSpeed then 1 else 0) else p.last
  }

  /** The read clock the next sdma_access call starts at, after the attempt
      `run`: after a command timeout, where the full reset and cardInit(0) end;
      otherwise where the run ended. */
  ghost function ClockAfter(d: Device, run: SdmaRun): nat
    requires Live(d)
  {
    if run.CmdTimeout? then run.at + LineWaitReads(d, run.at) + 1 else SdmaEnd(run)
  }

  /** The count of commands issued when the next sdma_access call starts, after
      the attempt `run` whose command was the `n`th: after a command timeout,
      the count cardInit(0) ends at; otherwise `n`. */
  ghost function IssuedAfter(d: Device, cfg: Config, run: SdmaRun, n: nat): nat
    requires Live(d)
  {
    if run.CmdTimeout? then InitIssued(cfg, OpCondPhase(d, run.at, n + 2)) else n
  }

  /** The attempt `run`, whose command was the `n`th, timed out on it and the
      card did not come back from cardInit(0). */
  ghost predicate FailedRecovery(d: Device, run: SdmaRun, n: nat)
    requires Live(d)
  {
    run.CmdTimeout? && !OpCondPhase(d, run.at, n + 2).ready
  }

  /** Four pieces appended one after the other are the first followed by the
      other three. */
  lemma AppendFour<T>(a: seq<T>, b: seq<T>, c: seq<T>, d: seq<T>)
    ensures a + b + c + d == a + (b + c + d)
  {
  }

  /** The command of an SDMA transfer from card block `block`, for a card
      addressed by block when `highCapacity`. */
  function SdmaCommand(read: bool, highCapacity: bool, block: nat): Event
  {
    Cmd(if read then READ_MULTIPLE_BLOCK else WRITE_MULTIPLE_BLOCK, SDCR18, AddressArg(highCapacity, block), true)
  }

  /** What sdma_access sends before it waits for its command, moving `nblks`
      blocks from card block `block` in the direction `read`: the reset
      work-around, the first fill of the bounce buffer on a write, and the
      multi-block command. */
  function SdmaSetUp(cfg: Config, read: bool, highCapacity: bool, block: nat, nblks: nat): seq<Event>
  {
    WarResets(cfg) + (if read then [] else Fills(nblks, 0, 1)) + [SdmaCommand(read, highCapacity, block)]
  }

  /** The events of the recovery after a command timeout, whose cardInit(0)
      went through the operating-condition phase `p`: the full reset, the start
      and APP_OP_COND commands, and for a card that got ready its identification
      and configuration, with the RCA and bus-width answer of its responses. */
  function RecoveryCmds(d: Device, cfg: Config, p: OpCond): seq<Event>
  {
    [ResetIssued(FULL_RESET)] + (StartCmds() + OpCondCmds(p)) + ReadyCmds(d, cfg, p)
  }

  /** The identification and configuration commands cardInit sends once the
      card got ready in the phase `p`, with the RCA and bus-width answer of its
      responses; none for a card that did not. */
  function ReadyCmds(d: Device, cfg: Config, p: OpCond): seq<Event>
  {
    var rca := RcaOf(d.response(p.last + 2));
    if p.ready then IdentifyCmds(rca) + ConfigCmds(rca, cfg.wideBus, cfg.wideBus && BusWidthAccepted(d.response(p.last + 6)), cfg.highSpeed)
    else []
  }

  /** What the attempt `run`, whose command was the `n`th, sends after its
      command: the recovery after a command timeout, the copies of the SDMA loop
      when it ran, nothing when the response was rejected. */
  ghost function AfterCommand(d: Device, cfg: Config, read: bool, nblks: nat, run: SdmaRun, n: nat): seq<Event>
    requires Live(d)
  {
    if run.CmdTimeout? then RecoveryCmds(d, cfg, OpCondPhase(d, run.at, n + 2))
    else if run.Ran? then SdmaCopies(read, nblks, run.wait)
    else []
  }

  /** The card's addressing after the attempt `run`, whose command was the `n`th
      and which started with the addressing `hc`: after a command timeout, the
      one cardInit(0) learns (block addressing for a version 2.00 card that got
      ready and reported high capacity); otherwise `hc`. */
  ghost function ModeAfter(d: Device, run: SdmaRun, n: nat, hc: bool): bool
    requires Live(d)
  {
    if run.CmdTimeout? then
      var p := OpCondPhase(d, run.at, n + 2);
      p.ready && !p.legacy && HighCapacity(d.response(p.last))
    else hc
  }

  /** The sdma_access call the retry loop makes from read `t` with `n` commands
      issued and the card's addressing `hc`, moving `nblks` blocks from card
      block `block` in the direction `read`: the attempt SdmaPhase describes,
      where it (with its recovery) leaves the driver, and what it sends. */
  ghost function Attempted(d: Device, cfg: Config, read: bool, block: nat, nblks: nat, t: nat, n: nat, hc: bool): Attempt
    requires Live(d)
  {
    var run := SdmaPhase(d, t, d.response(n + 1), read);
    Attempt(run, ClockAfter(d, run), IssuedAfter(d, cfg, run, n + 1), FailedRecovery(d, run, n + 1),
            SdmaSetUp(cfg, read, hc, block, nblks) + AfterCommand(d, cfg, read, nblks, run, n + 1),
            ModeAfter(d, run, n + 1, hc))
  }

  /** Attempted as the attempt function of the retry loop. */
  ghost function AttemptAt(d: Device, cfg: Config, read: bool, block: nat, nblks: nat): (nat, nat, bool) -> Attempt
    requires Live(d)
  {
    (t: nat, n: nat, hc: bool) => Attempted(d, cfg, read, block, nblks, t, n, hc)
  }

  /** The retry loop from read `t` with `n` commands issued and the card's
      addressing `hc` makes one to SDMA_RETRY_COUNT attempts, the first from `t`,
      `n` and `hc`, each the one SdmaPhase describes from where it started; all
      but the last timed out, the loop stops early only after one that did not,
      and it leaves the card presence `p` as it was or marks the card for
      remount. */
  lemma RetriedAttempts(d: Device, cfg: Config, read: bool, block: nat, nblks: nat, t: nat, n: nat, p: Presence, hc: bool)
    requires Live(d)
    ensures RetriedShape(d, read, RetriesFrom(AttemptAt(d, cfg, read, block, nblks), t, n, p, hc, SdmaRetryCount), t, n, p, hc)
  {
    var step := AttemptAt(d, cfg, read, block, nblks);
    var r := RetriesFrom(step, t, n, p, hc, SdmaRetryCount);
    RetriesShape(step, t, n, p, hc, SdmaRetryCount);
    RetriesStop(step, t, n, p, hc, SdmaRetryCount);
    RetriesPresence(step, t, n, p, hc, SdmaRetryCount);
    ShapedAttempts(d, cfg, read, block, nblks, r);
  }

  /** The SDMA retry loop `r`, started at read `t` with `n` commands issued, the
      card presence `p` and the addressing `hc`: its first attempt from there,
      each the one SdmaPhase describes from where it started, all but the last
      timed out, fewer than SDMA_RETRY_COUNT only when the last did not, and the
      presence kept or marked for remount. */
  ghost predicate RetriedShape(d: Device, read: bool, r: Retries, t: nat, n: nat, p: Presence, hc: bool)
    requires Live(d)
  {
    && r.runs != [] && r.starts != [] && r.starts[0] == (t, n, hc)
    && AttemptsOf(d, r.runs, r.starts, read) && RetriedOnTimeout(r.runs)
    && (|r.runs| < SdmaRetryCount ==> Status(r) != Timeout)
    && (r.presence == p || r.presence == Remount)
  }

  /** A loop of the retry loop's shape whose attempts are made by sdma_access is
      made of the attempts SdmaPhase describes. */
  lemma ShapedAttempts(d: Device, cfg: Config, read: bool, block: nat, nblks: nat, r: Retries)
    requires Live(d) && Shaped(AttemptAt(d, cfg, read, block, nblks), r)
    ensures AttemptsOf(d, r.runs, r.starts, read)
  {
    var step := AttemptAt(d, cfg, read, block, nblks);
    forall i | 0 <= i < |r.runs|
      ensures r.runs[i] == SdmaPhase(d, r.starts[i].0, d.response(r.starts[i].1 + 1), read)
    {
      assert r.runs[i] == MadeFrom(step, r.starts[i]).run;
    }
  }

  /** The retry loop from read `t` with `n` commands issued and the card's
      addressing `hc` appends what its attempts send, in order, and each attempt
      sends the set-up for the whole request from card block `block` with the
      addressing it started with, then its recovery or its copies. */
  lemma RetriedSends(d: Device, cfg: Config, read: bool, block: nat, nblks: nat, t: nat, n: nat, p: Presence, hc: bool)
    requires Live(d)
    ensures var step := AttemptAt(d, cfg, read, block, nblks);
      var r := RetriesFrom(step, t, n, p, hc, SdmaRetryCount);
      && r.sent == Joined(step, r.starts)
      && (forall i :: 0 <= i < |r.starts| ==>
            MadeFrom(step, r.starts[i]).sent
            == SdmaSetUp(cfg, read, r.starts[i].2, block, nblks) + AfterCommand(d, cfg, read, nblks, r.runs[i], r.starts[i].1 + 1))
  {
    var step := AttemptAt(d, cfg, read, block, nblks);
    var r := RetriesFrom(step, t, n, p, hc, SdmaRetryCount);
    RetriesShape(step, t, n, p, hc, SdmaRetryCount);
    RetriesSent(step, t, n, p, hc, SdmaRetryCount);
  }

  /** The commands of one PIO routine run `e` for a card of capacity class
      `highCapacity` with relative address `rca`: the reset work-around, then
      READ_MULTIPLE_BLOCK or READ_SINGLE_BLOCK, WRITE_BLOCK, or APP_CMD,
      SET_WR_BLK_ERASE_COUNT with the block count and WRITE_MULTIPLE_BLOCK,
      addressed at card block `e.block`. Other events issue nothing. */
  function RoutineCmds(cfg: Config, highCapacity: bool, rca: bv32, e: Event): seq<Event>
  {
    if e.Transfer? then WarResets(cfg) + BlockCmds(highCapacity, rca, e) else []
  }

  /** The commands of a PIO routine run after the reset work-around. */
  function BlockCmds(highCapacity: bool, rca: bv32, e: Event): seq<Event>
    requires e.Transfer?
  {
    var addr := AddressArg(highCapacity, e.block);
    if !e.write then [Cmd(if e.multi then READ_MULTIPLE_BLOCK else READ_SINGLE_BLOCK, if e.multi then SDCR18 else SDCR17, addr, true)]
    else if e.multi then [Cmd(APP_CMD, SDCR55, RcaArg(rca), true), Cmd(APP_SET_WR_BLK_ERASE_COUNT, SDCR23, Word32(e.count), true),
                          Cmd(WRITE_MULTIPLE_BLOCK, SDCR24, addr, true)]
    else [Cmd(WRITE_BLOCK, SDCR24, addr, true)]
  }

  /** The number of commands one PIO routine run `e` issues. */
  function RoutineIssued(e: Event): nat
  {
    if !e.Transfer? then 0 else if e.write && e.multi then 3 else 1
  }

  /** The commands of the PIO routine runs `ran`, in order. */
  function LoopCmds(cfg: Config, highCapacity: bool, rca: bv32, ran: seq<Event>): seq<Event>
  {
    if ran == [] then [] else LoopCmds(cfg, highCapacity, rca, ran[..|ran| - 1]) + RoutineCmds(cfg, highCapacity, rca, ran[|ran| - 1])
  }

  /** The number of commands the PIO routine runs `ran` issue. */
  function LoopIssued(ran: seq<Event>): nat
  {
    if ran == [] then 0 else LoopIssued(ran[..|ran| - 1]) + RoutineIssued(ran[|ran| - 1])
  }

  /** One more routine run `e` adds its commands at the end: a trace that held
      `trace0` and the commands of `ran` (`mid`) and then got those of `e` holds
      `trace0` and the commands of `ran + [e]`; likewise for the counts. */
  lemma LoopCmdsExtend(cfg: Config, highCapacity: bool, rca: bv32, ran: seq<Event>, e: Event,
                       trace0: seq<Event>, mid: seq<Event>, trace: seq<Event>, n0: nat, nMid: nat, n: nat)
    requires e.Transfer?
    requires mid == trace0 + LoopCmds(cfg, highCapacity, rca, ran) && nMid == n0 + LoopIssued(ran)
    requires trace == mid + WarResets(cfg) + BlockCmds(highCapacity, rca, e) && n == nMid + RoutineIssued(e)
    ensures trace == trace0 + LoopCmds(cfg, highCapacity, rca, ran + [e]) && n == n0 + LoopIssued(ran + [e])
  {
    assert (ran + [e])[..|ran|] == ran;
    assert trace == trace0 + (LoopCmds(cfg, highCapacity, rca, ran) + (WarResets(cfg) + BlockCmds(highCapacity, rca, e)));
  }

  /** The commands of the routine runs of a plan: every run adds the reset
      work-around and its routine's commands, the last of them its block
      command at the card address of its own block; no runs issue nothing. */
  lemma {:induction false} LoopCmdsMeaning(cfg: Config, highCapacity: bool, rca: bv32, ran: seq<Event>)
    requires Transfers(ran)
    ensures ran == [] ==> LoopCmds(cfg, highCapacity, rca, ran) == [] && LoopIssued(ran) == 0
    ensures |LoopCmds(cfg, highCapacity, rca, ran)| == (if cfg.noResetWar then 0 else 2 * |ran|) + LoopIssued(ran)
    ensures LoopIssued(ran) >= |ran|
    ensures ran != [] ==> LastCmd(LoopCmds(cfg, highCapacity, rca, ran)) == BlockCmd(highCapacity, ran[|ran| - 1])
    decreases |ran|
  {
    if ran != [] {
      var init, e := ran[..|ran| - 1], ran[|ran| - 1];
      assert Transfers(init) by {
        forall i | 0 <= i < |init| ensures init[i].Transfer? { assert init[i] == ran[i]; }
      }
      LoopCmdsMeaning(cfg, highCapacity, rca, init);
      var before, b := LoopCmds(cfg, highCapacity, rca, init), BlockCmds(highCapacity, rca, e);
      assert |b| == RoutineIssued(e) && LastCmd(b) == BlockCmd(highCapacity, e);
      var cmds := before + (WarResets(cfg) + b);
      assert LoopCmds(cfg, highCapacity, rca, ran) == cmds;
      assert cmds[|cmds| - 1] == b[|b| - 1];
    }
  }

  /** The last event of a non-empty command list, or none. */
  function LastCmd(cmds: seq<Event>): Option<Event>
  {
    if cmds == [] then None else Some(cmds[|cmds| - 1])
  }

  /** The block command of a PIO routine run `e`: READ_SINGLE_BLOCK,
      READ_MULTIPLE_BLOCK, WRITE_BLOCK or WRITE_MULTIPLE_BLOCK at the card
      address of `e.block`. */
  function BlockCmd(highCapacity: bool, e: Event): Option<Event>
  {
    if !e.Transfer? then None
    else Some(Cmd(BlockCommand(e), if e.write then SDCR24 else if e.multi then SDCR18 else SDCR17,
                  AddressArg(highCapacity, e.block), true))
  }

  /** The block command a PIO routine run issues last. */
  function BlockCommand(e: Event): bv8
    requires e.Transfer?
  {
    if e.write then (if e.multi then WRITE_MULTIPLE_BLOCK else WRITE_BLOCK)
    else if e.multi then READ_MULTIPLE_BLOCK else READ_SINGLE_BLOCK
  }

  /** Host Control after cardInit's optional bus-width and high-speed switches:
      the 4-bit bit when the card accepted the switch, the high-speed bit in a
      high-speed build, and bit 0 (LED Control in the register map), which
      cardInit always sets last. */
  function InitHostControl(hc: bv8, defs: HostDefs, wide: bool, accepted: bool, highSpeed: bool): bv8
  {
    var h1 := if wide && accepted then SetBits8(hc, defs.ctrl4BitBus) else hc;
    var h2 := if highSpeed then SetBits8(h1, defs.ctrlHispd) else h1;
    SetBits8(h2, 0x01)
  }

  /** cardInit keeps every bit Host Control had, and leaves bit 0, the 4-bit bit
      when the card accepted the switch and the high-speed bit in a high-speed
      build set. */
  lemma InitHostControlBits(hc: bv8, defs: HostDefs, wide: bool, accepted: bool, highSpeed: bool)
    ensures InitHostControl(hc, defs, wide, accepted, highSpeed) & 0x01 == 0x01
    ensures hc & InitHostControl(hc, defs, wide, accepted, highSpeed) == hc
    ensures wide && accepted ==>
      InitHostControl(hc, defs, wide, accepted, highSpeed) & defs.ctrl4BitBus == defs.ctrl4BitBus
    ensures highSpeed ==>
      InitHostControl(hc, defs, wide, accepted, highSpeed) & defs.ctrlHispd == defs.ctrlHispd
  {
    HostControlLed(hc, defs, wide, accepted, highSpeed);
    HostControlKept(hc, defs, wide, accepted, highSpeed);
    if wide && accepted {
      HostControlWide(hc, defs, highSpeed);
    }
    if highSpeed {
      HostControlHighSpeed(hc, defs, wide, accepted);
    }
  }

  // One bit-level fact per lemma: the solver handles them one at a time far
  // more cheaply than together.
  lemma HostControlLed(hc: bv8, defs: HostDefs, wide: bool, accepted: bool, highSpeed: bool)
    ensures InitHostControl(hc, defs, wide, accepted, highSpeed) & 0x01 == 0x01
  {
  }

  lemma HostControlKept(hc: bv8, defs: HostDefs, wide: bool, accepted: bool, highSpeed: bool)
    ensures hc & InitHostControl(hc, defs, wide, accepted, highSpeed) == hc
  {
  }

  lemma HostControlWide(hc: bv8, defs: HostDefs, highSpeed: bool)
    ensures InitHostControl(hc, defs, true, true, highSpeed) & defs.ctrl4BitBus == defs.ctrl4BitBus
  {
  }

  lemma HostControlHighSpeed(hc: bv8, defs: HostDefs, wide: bool, accepted: bool)
    ensures InitHostControl(hc, defs, wide, accepted, true) & defs.ctrlHispd == defs.ctrlHispd
  {
  }

  /** maxBlock after parseCSD of the response `r`: the value parseCSD computes
      (the last block of a version 1.0 CSD, the capacity count of a version 2.0
      one), or the previous value for an unknown CSD structure. */
  function CapacityAfter(prev: nat, r: CardRegisters.Response): (m: nat)
    ensures m == prev || m < Two32
    ensures CsdRegister.CsdStructure(r) <= 1 ==> m == CsdRegister.ParseCsdAsWritten(r).value
    ensures CsdRegister.CsdStructure(r) > 1 ==> m == prev
  {
    match CsdRegister.ParseCsdAsWritten(r)
    case Some(m) => m
    case None => prev
  }

  /** The Command word as SDCommand assembles it: the index in the high byte, the
      response flags, and the data-present bit for the four data commands. */
  function AssembledWord(cmd: bv8, code: bv16): bv16
  {
    var response := if TransfersData(cmd) then ResponseFlags(code) | DataPresent else ResponseFlags(code);
    ((cmd as bv16) << 8) | response
  }

  /** The assembled word is the Command register word of the command and its
      response code. */
  lemma AssembledIsWord(cmd: bv8, code: bv16)
    ensures AssembledWord(cmd, code) == Word(cmd, code)
  {
    if TransfersData(cmd) {
      var hi, flags := (cmd as bv16) << 8, ResponseFlags(code);
      assert hi | (flags | DataPresent) == hi | flags | DataPresent;
    } else {
      var w := ((cmd as bv16) << 8) | ResponseFlags(code);
      assert w | 0 == w;
    }
  }

  class Sdhc {
    const dev: Device
    const defs: HostDefs
    const cfg: Config
    const regs: RegisterBlock
    /** physSdmaBuff: the bus address of the 32 KiB-aligned SDMA bounce buffer. */
    const physSdmaBuff: nat
    /** physSdmaBuff as the 32-bit value written to SDMASysAddr. */
    const sdmaAddr: bv32

    /** Reads of the volatile status registers so far (the Device's read clock). */
    var clock: nat
    /** Commands issued so far: the Response registers hold dev.response(issued). */
    var issued: nat
    /** Words read from BufferDataPort so far. */
    var dataReads: nat
    /** Register memory mappings attempted so far. */
    var maps: nat

    var cardPresence: Presence
    var isHighCapacity: bool
    /** RCA: the relative card address from SET_RELATIVE_ADDR, as held in 32 bits. */
    var rca: bv32
    /** maxBlock: the highest block number reported to the block layer. */
    var maxBlock: nat
    /** SDCIDReg: the decoded CID of each of the six slots. */
    var cids: seq<CardRegisters.Cid>

    ghost var trace: seq<Event>
    /** The transfer lock taken and released, and the completion actions called, in order. */
    ghost var calls: seq<Event>

    ghost predicate Valid()
      reads this`cids, this`maxBlock
    {
      |cids| == 6 && maxBlock < Two32 && Live(dev) && physSdmaBuff < Two32 && Aligned(physSdmaBuff)
    }

    /** The object as start() leaves it before calling setup(): no card, and, with
        SDMA compiled in, the bounce buffer placed at the first 32 KiB boundary
        above the physical address of its 64 KiB allocation, in 32 bits. */
    constructor (dev: Device, defs: HostDefs, cfg: Config, physAlloc: nat)
      requires Live(dev) && physAlloc < Two32
      ensures Valid() && fresh(regs)
      ensures this.dev == dev && this.defs == defs && this.cfg == cfg
      ensures cfg.sdmaDefined ==> physSdmaBuff == U32(physAlloc + BounceAdjust(physAlloc))
      ensures sdmaAddr == physSdmaBuff as bv32
      ensures cardPresence == NotPresent && trace == [] && calls == []
      ensures clock == 0 && issued == 0 && dataReads == 0 && maps == 0
    {
      this.dev, this.defs, this.cfg := dev, defs, cfg;
      regs := new RegisterBlock();
      var phys := 0;
      if cfg.sdmaDefined {
        BounceWindow(physAlloc);
        phys := U32(physAlloc + BounceAdjust(physAlloc));
        AlignedWraps(physAlloc + BounceAdjust(physAlloc));
      }
      physSdmaBuff := phys;
      sdmaAddr := phys as bv32;
      clock, issued, dataReads, maps := 0, 0, 0, 0;
      cardPresence := NotPresent;
      isHighCapacity := false;
      rca, maxBlock := 0, 0;
      cids := [BlankCid, BlankCid, BlankCid, BlankCid, BlankCid, BlankCid];
      trace, calls := [], [];
    }

    // ---- Presence and write protection ----

    /** isCardPresent: Card Inserted in PresentState. */
    method IsCardPresent() returns (present: bool)
      modifies this`clock
      ensures present <==> dev.presentState(old(clock)) & CardInserted != 0
      ensures clock == old(clock) + 1
    {
      present := dev.presentState(clock) & CardInserted != 0;
      clock := clock + 1;
    }

    /** isCardWP: always write-protected in a read-only build, otherwise the inverted
        Write Protect Switch Pin Level of PresentState. */
    method IsCardWP() returns (wp: bool)
      modifies this`clock
      ensures cfg.readOnly ==> wp && clock == old(clock)
      ensures !cfg.readOnly ==>
        clock == old(clock) + 1 && (wp <==> dev.presentState(old(clock)) & WPSwitchLevel == 0)
    {
      if cfg.readOnly {
        wp := true;
      } else {
        wp := dev.presentState(clock) & WPSwitchLevel == 0;
        clock := clock + 1;
      }
    }

    // ---- Commands and resets ----

    /** Reset: write CMD_RESET, DAT_RESET or, for any other type, FULL_RESET to
        SoftwareReset, then wait until the controller clears it. */
    method Reset(kind: bv8)
      modifies regs`softwareReset, this`trace
      ensures regs.softwareReset == 0
      ensures kind == CMD_RESET || kind == DAT_RESET ==> trace == old(trace) + [ResetIssued(kind)]
      ensures kind != CMD_RESET && kind != DAT_RESET ==> trace == old(trace) + [ResetIssued(FULL_RESET)]
    {
      var written := if kind == CMD_RESET then CMD_RESET else if kind == DAT_RESET then DAT_RESET else FULL_RESET;
      regs.softwareReset := written;
      trace := trace + [ResetIssued(written)];
      // The controller clears the bits once the reset is done; the spin is not modelled.
      regs.softwareReset := 0;
    }

    /** The resets before a transfer, unless NO_RESET_WAR is defined. */
    method ResetWar()
      modifies regs`softwareReset, this`trace
      ensures trace == old(trace) + WarResets(cfg)
      ensures cfg.noResetWar ==> regs.softwareReset == old(regs.softwareReset)
    {
      if !cfg.noResetWar {
        Reset(CMD_RESET);
        Reset(DAT_RESET);
      }
    }

    /** SDCommand: write the argument, the TransferMode of a multi-block command,
        and the Command word. For every command but GO_IDLE_STATE the driver first
        waits for the CMD line; the wait is recorded, not modelled. */
    method SdCommand(cmd: bv8, code: bv16, arg: bv32)
      modifies regs`argument, regs`transferMode, regs`command, this`issued, this`trace
      ensures regs.argument == arg && regs.command == Word(cmd, code)
      ensures TransferModeFor(cmd, defs, cfg).Some? ==> regs.transferMode == TransferModeFor(cmd, defs, cfg).value
      ensures TransferModeFor(cmd, defs, cfg).None? ==> regs.transferMode == old(regs.transferMode)
      ensures issued == old(issued) + 1
      ensures trace == old(trace) + [Cmd(cmd, code, arg, cmd != 0)]
    {
      regs.argument := arg;
      // READ_MULTIPLE_BLOCK and WRITE_MULTIPLE_BLOCK also set TransferMode.
      var mode := TransferModeFor(cmd, defs, cfg);
      if mode.Some? {
        regs.transferMode := mode.value;
      }
      regs.command := AssembledWord(cmd, code);
      AssembledIsWord(cmd, code);
      issued := issued + 1;
      trace := trace + [Cmd(cmd, code, arg, cmd != 0)];
    }

    // ---- Clock and power ----

    /** calcClock: stop the clock, enable the internal clock, program the smallest
        power-of-two divisor that brings the base clock down to the requested speed
        and enable the SD clock. The divisor field is written as the source writes
        it, with the mask 0xFF000 (see Findings). The wait for a
        stable clock tests `!ClockControl & BIT1`, which is always 0, so it never
        waits. */
    method CalcClock(clockspeed: nat)
      modifies regs`clockControl
      ensures regs.clockControl == ClockWord(dev.caps, clockspeed)
    {
      regs.clockControl := 0;
      regs.clockControl := 0;
      regs.clockControl := regs.clockControl | InternalClockEn;
      var baseClock := BaseClockHz(dev.caps);
      var div := ClockDivisor(baseClock, clockspeed);
      var field := DivisorFieldAsWritten(DivBits(div));
      regs.clockControl := regs.clockControl | field;
      regs.clockControl := regs.clockControl | SDClockEn;
    }

    /** powerSD: clear Power Control, select the highest supported voltage and turn
        on SD bus power. */
    method PowerSd()
      modifies regs`powerControl
      ensures regs.powerControl == PowerControlValue(dev.caps)
    {
      regs.powerControl := 0;
      if dev.caps & CR3v3Support != 0 {
        regs.powerControl := regs.powerControl | HC3v3;
      } else if dev.caps & CR3v0Support != 0 {
        regs.powerControl := regs.powerControl | HC3v0;
      } else if dev.caps & CR1v8Support != 0 {
        regs.powerControl := regs.powerControl | HC1v8;
      }
      regs.powerControl := regs.powerControl | SDPower;
    }

    // ---- Card registers ----

    /** parseCID: decode the response to ALL_SEND_CID into the slot's CID entry. */
    method ParseCid(slot: nat)
      requires slot < |cids|
      modifies this`cids
      ensures cids == old(cids)[slot := CardRegisters.ParseCid(dev.response(issued))]
    {
      cids := cids[slot := CardRegisters.ParseCid(dev.response(issued))];
    }

    /** parseCSD: the last block number from the response to SEND_CSD; an unknown
        CSD structure leaves maxBlock as it was. */
    method ParseCsd()
      modifies this`maxBlock
      ensures maxBlock == CapacityAfter(old(maxBlock), dev.response(issued))
    {
      match CsdRegister.ParseCsdAsWritten(dev.response(issued))
      case Some(m) => maxBlock := m;
      case None =>
    }

    // ---- Status waits ----

    /** waitIntStatus: read NormalIntStatus until it shows the error bit or a bit of
        `mask`; on a mask bit, write back the value read with the mask bits set
        (acknowledging every pending status bit) and succeed. The outer retry
        loop of the source never runs a second time, since the inner loop only
        ends by returning. */
    method WaitIntStatus(mask: bv16) returns (ok: bool)
      requires Live(dev)
      modifies this`clock, regs`normalIntStatus
      ensures clock == FirstHit(dev, mask, old(clock)) + 1
      ensures ok <==> !Errored(dev.intStatus(clock - 1))
      ensures ok ==> AnyOf(dev.intStatus(clock - 1), mask)
      ensures ok ==> regs.normalIntStatus == dev.intStatus(clock - 1) | mask
      ensures !ok ==> regs.normalIntStatus == old(regs.normalIntStatus)
    {
      ghost var stop := FirstHit(dev, mask, clock);
      FirstHitIsFirst(dev, mask, clock);
      while true
        invariant old(clock) <= clock <= stop && stop == FirstHit(dev, mask, old(clock))
        invariant regs.normalIntStatus == old(regs.normalIntStatus)
        decreases stop - clock
      {
        var nis := dev.intStatus(clock);
        if Hit(dev, mask, clock) {
          assert clock == stop;
        }
        clock := clock + 1;
        if Errored(nis) {
          return false;
        }
        if AnyOf(nis, mask) {
          regs.normalIntStatus := nis | mask;
          return true;
        }
      }
    }

    /** The bounded busy-wait of the PIO routines: test the condition, then the
        error bit of NormalIntStatus; count the misses in `cnt`, restarting it and
        counting a `pass` every 100001 misses, and give up at the eleventh pass. */
    method PollFor(c: Cond) returns (r: PollResult)
      modifies this`clock
      ensures (r, clock) == Poll(dev, c, old(clock), PollTries)
    {
      var cnt, pass := 0, 0;
      ghost var left := PollTries;
      while true
        invariant 0 <= pass <= 10 && 0 <= cnt <= 100000
        invariant left == PollTries - (100001 * pass + cnt) && left >= 1
        invariant Poll(dev, c, clock, left) == Poll(dev, c, old(clock), PollTries)
        decreases left
      {
        if Satisfied(dev, c, clock) {
          clock := clock + 1;
          return Ready;
        }
        if Errored(dev.intStatus(clock + 1)) {
          clock := clock + 2;
          return Failed;
        }
        clock := clock + 2;
        cnt := cnt + 1;
        left := left - 1;
        if cnt > 100000 {
          cnt := 0;
          pass := pass + 1;
          if pass > 10 {
            return Expired;
          }
        }
      }
    }

    // ---- Card initialisation ----

    /** The wait for the CMD line after SEND_IF_COND: up to 100 reads of
        PresentState, stopping at the first that shows the line free, then one
        more read that decides whether the card answered. */
    method WaitCmdLine() returns (legacy: bool)
      modifies this`clock
      ensures clock == old(clock) + LineWaitReads(dev, old(clock)) + 1
      ensures legacy <==> LegacyCard(dev, old(clock))
    {
      ghost var t := clock;
      var i := 0;
      while i < 100
        invariant 0 <= i <= 100 && clock == t + i
        invariant forall j :: t <= j < t + i ==> !LineFree(dev.presentState(j))
        decreases 100 - i
      {
        var free := LineFree(dev.presentState(clock));
        clock := clock + 1;
        if free {
          LineWaitStops(dev, t, i);
          break;
        }
        i := i + 1;
      }
      if clock == t + i {
        LineWaitExhausted(dev, t);
      }
      LegacyCardAt(dev, t, clock);
      legacy := !LineFree(dev.presentState(clock));
      clock := clock + 1;
    }

    /** One round of either loop: APP_CMD to RCA 0, then APP_OP_COND with `arg`. */
    method OpCondRound(arg: bv32)
      modifies regs`argument, regs`transferMode, regs`command, this`issued, this`trace
      ensures issued == old(issued) + 2
      ensures trace == old(trace) + [Cmd(APP_CMD, SDCR55, 0, true), Cmd(APP_OP_COND, SDACR41, arg, true)]
      ensures regs.transferMode == old(regs.transferMode)
    {
      SdCommand(APP_CMD, SDCR55, 0);
      SdCommand(APP_OP_COND, SDACR41, arg);
    }

    /** The legacy loop: APP_CMD and APP_OP_COND with the 2.7-3.6 V window, repeated
        until the response shows power-up complete. */
    method OpCondLegacy()
      requires Live(dev)
      modifies regs`argument, regs`transferMode, regs`command, this`issued, this`trace
      ensures issued == OpCondAt(old(issued), LegacyRounds(dev, old(issued)))
      ensures trace == old(trace) + OpCondRounds(OcrWindowArg, LegacyRounds(dev, old(issued)))
      ensures regs.transferMode == old(regs.transferMode)
    {
      ghost var n := issued;
      OpCondRound(OcrWindowArg);
      ghost var k := 1;
      while !PoweredUp(dev.response(issued))
        invariant 1 <= k <= LegacyRounds(dev, n)
        invariant forall j :: 1 <= j < k ==> !PoweredUp(dev.response(OpCondAt(n, j)))
        invariant issued == OpCondAt(n, k) && trace == old(trace) + OpCondRounds(OcrWindowArg, k)
        invariant regs.transferMode == old(regs.transferMode)
        decreases LegacyRounds(dev, n) - k
      {
        OpCondRound(OcrWindowArg);
        k := k + 1;
      }
      LegacyRoundsStop(dev, n, k);
    }

    /** The version 2.00 loop: up to 80 rounds of APP_CMD and APP_OP_COND asking for
        high capacity, stopping at the first response that shows power-up complete. */
    method OpCondHcs() returns (ready: bool)
      modifies regs`argument, regs`transferMode, regs`command, this`issued, this`trace
      ensures issued == OpCondAt(old(issued), HcsRounds(dev, old(issued), HcsTries))
      ensures trace == old(trace) + OpCondRounds(OcrHcsArg, HcsRounds(dev, old(issued), HcsTries))
      ensures ready <==> PoweredUp(dev.response(issued))
      ensures regs.transferMode == old(regs.transferMode)
    {
      ghost var n := issued;
      var i := 0;
      while i < 80
        invariant 0 <= i <= 80
        invariant forall j :: 1 <= j <= i ==> !PoweredUp(dev.response(OpCondAt(n, j)))
        invariant issued == OpCondAt(n, i) && trace == old(trace) + OpCondRounds(OcrHcsArg, i)
        invariant regs.transferMode == old(regs.transferMode)
        decreases 80 - i
      {
        OpCondRound(OcrHcsArg);
        if PoweredUp(dev.response(issued)) {
          HcsRoundsStop(dev, n, HcsTries, i + 1);
          return true;
        }
        i := i + 1;
      }
      HcsRoundsStop(dev, n, HcsTries, 80);
      return false;
    }

    /** Identification after power-up: ALL_SEND_CID into the slot's CID entry,
        SET_RELATIVE_ADDR, the 25 MHz clock, SEND_CSD into maxBlock and SELECT_CARD. */
    method Identify(slot: nat)
      requires slot < |cids|
      modifies regs`argument, regs`transferMode, regs`command, regs`clockControl
      modifies this`issued, this`trace, this`cids, this`rca, this`maxBlock
      ensures issued == old(issued) + 4
      ensures cids == old(cids)[slot := CardRegisters.ParseCid(dev.response(old(issued) + 1))]
      ensures rca == RcaOf(dev.response(old(issued) + 2))
      ensures maxBlock == CapacityAfter(old(maxBlock), dev.response(old(issued) + 3))
      ensures regs.clockControl == ClockWord(dev.caps, 25_000_000)
      ensures trace == old(trace) + IdentifyCmds(rca)
      ensures regs.transferMode == old(regs.transferMode)
    {
      NameCard(slot);
      SelectCard();
      assert [Cmd(ALL_SEND_CID, SDCR2, 0, true), Cmd(SET_RELATIVE_ADDR, SDCR3, 0, true)]
             + [Cmd(SEND_CSD, SDCR9, RcaArg(rca), true), Cmd(SELECT_CARD, SDCR7, RcaArg(rca), true)] == IdentifyCmds(rca);
    }

    /** The first half of identification: ALL_SEND_CID into the slot's CID
        entry, then SET_RELATIVE_ADDR and the 25 MHz clock. */
    method NameCard(slot: nat)
      requires slot < |cids|
      modifies regs`argument, regs`transferMode, regs`command, regs`clockControl
      modifies this`issued, this`trace, this`cids, this`rca
      ensures issued == old(issued) + 2
      ensures cids == old(cids)[slot := CardRegisters.ParseCid(dev.response(old(issued) + 1))]
      ensures rca == RcaOf(dev.response(issued))
      ensures regs.clockControl == ClockWord(dev.caps, 25_000_000)
      ensures trace == old(trace) + [Cmd(ALL_SEND_CID, SDCR2, 0, true), Cmd(SET_RELATIVE_ADDR, SDCR3, 0, true)]
      ensures regs.transferMode == old(regs.transferMode)
    {
      ReadCid(slot);
      AssignAddress();
    }

    /** The second half of identification: SEND_CSD into maxBlock, then
        SELECT_CARD, both to the card at RCA. */
    method SelectCard()
      modifies regs`argument, regs`transferMode, regs`command, this`issued, this`trace, this`maxBlock
      ensures issued == old(issued) + 2
      ensures maxBlock == CapacityAfter(old(maxBlock), dev.response(old(issued) + 1))
      ensures trace == old(trace) + [Cmd(SEND_CSD, SDCR9, RcaArg(rca), true), Cmd(SELECT_CARD, SDCR7, RcaArg(rca), true)]
      ensures regs.transferMode == old(regs.transferMode)
    {
      ReadCsd();
      SdCommand(SELECT_CARD, SDCR7, RcaArg(rca));
    }

    /** ALL_SEND_CID and parseCID into the slot's entry. */
    method ReadCid(slot: nat)
      requires slot < |cids|
      modifies regs`argument, regs`transferMode, regs`command, this`issued, this`trace, this`cids
      ensures issued == old(issued) + 1
      ensures cids == old(cids)[slot := CardRegisters.ParseCid(dev.response(issued))]
      ensures trace == old(trace) + [Cmd(ALL_SEND_CID, SDCR2, 0, true)]
      ensures regs.transferMode == old(regs.transferMode)
    {
      SdCommand(ALL_SEND_CID, SDCR2, 0);
      ParseCid(slot);
    }

    /** SET_RELATIVE_ADDR, the 25 MHz clock, and the RCA from the R6 response. */
    method AssignAddress()
      modifies regs`argument, regs`transferMode, regs`command, regs`clockControl, this`issued, this`trace, this`rca
      ensures issued == old(issued) + 1
      ensures rca == RcaOf(dev.response(issued))
      ensures regs.clockControl == ClockWord(dev.caps, 25_000_000)
      ensures trace == old(trace) + [Cmd(SET_RELATIVE_ADDR, SDCR3, 0, true)]
      ensures regs.transferMode == old(regs.transferMode)
    {
      SdCommand(SET_RELATIVE_ADDR, SDCR3, 0);
      CalcClock(25_000_000);
      rca := RcaOf(dev.response(issued));
    }

    /** SEND_CSD to the card at RCA and parseCSD into maxBlock. */
    method ReadCsd()
      modifies regs`argument, regs`transferMode, regs`command, this`issued, this`trace, this`maxBlock
      ensures issued == old(issued) + 1
      ensures maxBlock == CapacityAfter(old(maxBlock), dev.response(issued))
      ensures trace == old(trace) + [Cmd(SEND_CSD, SDCR9, RcaArg(rca), true)]
      ensures regs.transferMode == old(regs.transferMode)
    {
      SdCommand(SEND_CSD, SDCR9, RcaArg(rca));
      ParseCsd();
    }

    /** WIDE_BUS_MODE: APP_CMD to the card, SET_BUS_WIDTH to 4 bits, and the 4-bit
        bit of Host Control when the card accepted it, the CMD and DAT resets when
        it did not. */
    method SetBusWidth() returns (ghost accepted: bool)
      modifies regs`argument, regs`transferMode, regs`command, regs`hostControl, regs`softwareReset
      modifies this`issued, this`trace
      ensures issued == old(issued) + 2
      ensures accepted == BusWidthAccepted(dev.response(issued))
      ensures trace == old(trace) + BusWidthCmds(rca, accepted)
      ensures regs.hostControl == if accepted then SetBits8(old(regs.hostControl), defs.ctrl4BitBus) else old(regs.hostControl)
      ensures regs.transferMode == old(regs.transferMode)
    {
      SdCommand(APP_CMD, SDCR55, RcaArg(rca));
      SdCommand(APP_SET_BUS_WIDTH, SDCR6, SD_BUS_WIDTH_4);
      var ok := BusWidthAccepted(dev.response(issued));
      accepted := ok;
      ApplyBusWidth(ok);
    }

    /** The 4-bit bit of Host Control when the card accepted SET_BUS_WIDTH, the CMD
        and DAT resets when it did not. */
    method ApplyBusWidth(ok: bool)
      modifies regs`hostControl, regs`softwareReset, this`trace
      ensures trace == old(trace) + if ok then [] else [ResetIssued(CMD_RESET), ResetIssued(DAT_RESET)]
      ensures regs.hostControl == if ok then SetBits8(old(regs.hostControl), defs.ctrl4BitBus) else old(regs.hostControl)
    {
      if ok {
        regs.hostControl := SetBits8(regs.hostControl, defs.ctrl4BitBus);
      } else {
        Reset(CMD_RESET);
        Reset(DAT_RESET);
      }
    }

    /** HIGHSPEED_CARD_MODE: SWITCH to high-speed timing, the 50 MHz clock and the
        high-speed bit of Host Control. */
    method SetHighSpeed()
      modifies regs`argument, regs`transferMode, regs`command, regs`hostControl, regs`clockControl
      modifies this`issued, this`trace
      ensures issued == old(issued) + 1
      ensures trace == old(trace) + HighSpeedCmds()
      ensures regs.hostControl == SetBits8(old(regs.hostControl), defs.ctrlHispd)
      ensures regs.clockControl == ClockWord(dev.caps, 50_000_000)
      ensures regs.transferMode == old(regs.transferMode)
    {
      SdCommand(SWITCH, SDCR6, SwitchHighSpeedArg);
      CalcClock(50_000_000);
      regs.hostControl := SetBits8(regs.hostControl, defs.ctrlHispd);
    }

    /** The bus-width switch of a WIDE_BUS_MODE build. */
    method MaybeBusWidth() returns (ghost accepted: bool)
      modifies regs`argument, regs`transferMode, regs`command, regs`hostControl, regs`softwareReset
      modifies this`issued, this`trace
      ensures issued == old(issued) + if cfg.wideBus then 2 else 0
      ensures accepted == (cfg.wideBus && BusWidthAccepted(dev.response(issued)))
      ensures trace == old(trace) + if cfg.wideBus then BusWidthCmds(rca, accepted) else []
      ensures regs.hostControl == if accepted then SetBits8(old(regs.hostControl), defs.ctrl4BitBus) else old(regs.hostControl)
      ensures regs.transferMode == old(regs.transferMode)
    {
      accepted := false;
      if cfg.wideBus {
        accepted := SetBusWidth();
      }
    }

    /** The high-speed switch of a HIGHSPEED_CARD_MODE build. */
    method MaybeHighSpeed()
      modifies regs`argument, regs`transferMode, regs`command, regs`hostControl, regs`clockControl
      modifies this`issued, this`trace
      ensures issued == old(issued) + if cfg.highSpeed then 1 else 0
      ensures trace == old(trace) + if cfg.highSpeed then HighSpeedCmds() else []
      ensures regs.hostControl == if cfg.highSpeed then SetBits8(old(regs.hostControl), defs.ctrlHispd) else old(regs.hostControl)
      ensures cfg.highSpeed ==> regs.clockControl == ClockWord(dev.caps, 50_000_000)
      ensures !cfg.highSpeed ==> regs.clockControl == old(regs.clockControl)
      ensures regs.transferMode == old(regs.transferMode)
    {
      if cfg.highSpeed {
        SetHighSpeed();
      }
    }

    /** The end of cardInit: the optional switches, the 512-byte block size, a block
        count of one and bit 0 of Host Control. */
    method Configure() returns (ghost accepted: bool)
      modifies regs`argument, regs`transferMode, regs`command, regs`hostControl, regs`clockControl
      modifies regs`softwareReset, regs`blockSize, regs`blockCount, this`issued, this`trace
      ensures issued == old(issued) + (if cfg.wideBus then 2 else 0) + (if cfg.highSpeed then 1 else 0)
      ensures accepted == (cfg.wideBus && BusWidthAccepted(dev.response(old(issued) + 2)))
      ensures regs.hostControl == InitHostControl(old(regs.hostControl), defs, cfg.wideBus, accepted, cfg.highSpeed)
      ensures trace == old(trace) + ConfigCmds(rca, cfg.wideBus, accepted, cfg.highSpeed)
      ensures cfg.highSpeed ==> regs.clockControl == ClockWord(dev.caps, 50_000_000)
      ensures !cfg.highSpeed ==> regs.clockControl == old(regs.clockControl)
      ensures regs.blockSize == 512 && regs.blockCount == 1
      ensures regs.transferMode == old(regs.transferMode)
    {
      accepted := MaybeBusWidth();
      MaybeHighSpeed();
      regs.blockSize := 512;
      regs.blockCount := 1;
      regs.hostControl := SetBits8(regs.hostControl, 0x01);
    }

    /** The start of cardInit: the 400 kHz clock, bus power, GO_IDLE_STATE and
        SEND_IF_COND. */
    method PowerUp()
      modifies regs`clockControl, regs`powerControl, regs`argument, regs`transferMode, regs`command
      modifies this`issued, this`trace
      ensures issued == old(issued) + 2
      ensures trace == old(trace) + StartCmds()
      ensures regs.clockControl == ClockWord(dev.caps, 400_000)
      ensures regs.powerControl == PowerControlValue(dev.caps)
      ensures regs.transferMode == old(regs.transferMode)
    {
      CalcClock(400_000);
      PowerSd();
      SdCommand(GO_IDLE_STATE, SDCR0, 0);
      SdCommand(SEND_IF_COND, SDCR8, IfCondArg);
    }

    /** The restart and legacy loop for a card that did not answer SEND_IF_COND. */
    method LegacyPath()
      requires Live(dev)
      modifies regs`argument, regs`transferMode, regs`command, regs`softwareReset, this`issued, this`trace
      ensures issued == OpCondAt(old(issued) + 1, LegacyRounds(dev, old(issued) + 1))
      ensures trace == old(trace) + (LegacyRestart() + OpCondRounds(OcrWindowArg, LegacyRounds(dev, old(issued) + 1)))
      ensures regs.transferMode == old(regs.transferMode)
    {
      Reset(CMD_RESET);
      Reset(DAT_RESET);
      SdCommand(GO_IDLE_STATE, SDCR0, 0);
      OpCondLegacy();
    }

    /** The operating-condition phase after SEND_IF_COND (command `issued`): the
        CMD-line wait, then the legacy or the version 2.00 loop. Only a version 2.00
        card can be high-capacity. */
    method OpCondStage() returns (ready: bool, ghost p: OpCond)
      requires Live(dev)
      modifies regs`argument, regs`transferMode, regs`command, regs`softwareReset
      modifies this`clock, this`issued, this`trace, this`isHighCapacity
      ensures p == OpCondPhase(dev, old(clock), old(issued)) && ready == p.ready
      ensures clock == old(clock) + LineWaitReads(dev, old(clock)) + 1
      ensures issued == p.last
      ensures trace == old(trace) + OpCondCmds(p)
      ensures isHighCapacity == (ready && !p.legacy && HighCapacity(dev.response(p.last)))
      ensures regs.transferMode == old(regs.transferMode)
    {
      ghost var t := clock;
      isHighCapacity := false;
      var legacy := WaitCmdLine();
      if legacy {
        p := LegacyStage(t);
        ready := true;
      } else {
        ready, p := HcsStage(t);
      }
    }

    /** The phase of a card that left the CMD line busy after SEND_IF_COND (command
        `issued`), the wait having started at read `t`. */
    method LegacyStage(ghost t: nat) returns (ghost p: OpCond)
      requires Live(dev) && LegacyCard(dev, t)
      modifies regs`argument, regs`transferMode, regs`command, regs`softwareReset, this`issued, this`trace
      ensures p == OpCondPhase(dev, t, old(issued)) && p.ready && p.legacy
      ensures issued == p.last && trace == old(trace) + OpCondCmds(p)
      ensures regs.transferMode == old(regs.transferMode)
    {
      OpCondPhaseLegacy(dev, t, issued);
      p := OpCondPhase(dev, t, issued);
      LegacyPath();
    }

    /** The phase of a card that answered SEND_IF_COND: the version 2.00 loop, and the
        Card Capacity Status of its last response once it is ready. */
    method HcsStage(ghost t: nat) returns (ready: bool, ghost p: OpCond)
      requires Live(dev) && !LegacyCard(dev, t)
      modifies regs`argument, regs`transferMode, regs`command, this`issued, this`trace, this`isHighCapacity
      ensures p == OpCondPhase(dev, t, old(issued)) && ready == p.ready && !p.legacy
      ensures issued == p.last && trace == old(trace) + OpCondCmds(p)
      ensures isHighCapacity == if ready then HighCapacity(dev.response(p.last)) else old(isHighCapacity)
      ensures regs.transferMode == old(regs.transferMode)
    {
      OpCondPhaseHcs(dev, t, issued);
      p := OpCondPhase(dev, t, issued);
      ready := OpCondHcs();
      if ready {
        isHighCapacity := HighCapacity(dev.response(issued));
      }
    }

    /** The first half of cardInit: power-up and the operating-condition phase. */
    method StartCard() returns (ok: bool, ghost p: OpCond)
      requires Live(dev)
      modifies regs`clockControl, regs`powerControl, regs`argument, regs`transferMode, regs`command
      modifies regs`softwareReset, this`clock, this`issued, this`trace, this`isHighCapacity
      ensures p == OpCondPhase(dev, old(clock), old(issued) + 2) && ok == p.ready
      ensures clock == old(clock) + LineWaitReads(dev, old(clock)) + 1
      ensures issued == p.last
      ensures trace == old(trace) + (StartCmds() + OpCondCmds(p))
      ensures regs.clockControl == ClockWord(dev.caps, 400_000)
      ensures regs.powerControl == PowerControlValue(dev.caps)
      ensures isHighCapacity == (ok && !p.legacy && HighCapacity(dev.response(p.last)))
      ensures regs.transferMode == old(regs.transferMode)
    {
      PowerUp();
      ok, p := OpCondStage();
      AppendPhases(old(trace), StartCmds(), OpCondCmds(p));
    }

    /** The state the second half of cardInit leaves, starting after command `n` (the
        last APP_OP_COND) from the CID table `cids0`, maxBlock `maxBlock0`, Host
        Control `hc0` and trace `trace0`: the card's CID in `slot`, its RCA and
        capacity learnt, the full-speed clock, 512-byte blocks, the Host Control bits
        of the switches the build asks for, and the identification and configuration
        commands appended to the trace. */
    ghost predicate Configured(n: nat, slot: nat, cids0: seq<CardRegisters.Cid>, maxBlock0: nat, hc0: bv8, trace0: seq<Event>)
      reads this`issued, this`cids, this`rca, this`maxBlock, this`trace
      reads regs`clockControl, regs`blockSize, regs`blockCount, regs`hostControl
    {
      var accepted := cfg.wideBus && BusWidthAccepted(dev.response(n + 6));
      slot < |cids0|
      && issued == n + 4 + (if cfg.wideBus then 2 else 0) + (if cfg.highSpeed then 1 else 0)
      && cids == cids0[slot := CardRegisters.ParseCid(dev.response(n + 1))]
      && rca == RcaOf(dev.response(n + 2))
      && maxBlock == CapacityAfter(maxBlock0, dev.response(n + 3))
      && regs.clockControl == ClockWord(dev.caps, if cfg.highSpeed then 50_000_000 else 25_000_000)
      && regs.blockSize == 512 && regs.blockCount == 1
      && regs.hostControl == InitHostControl(hc0, defs, cfg.wideBus, accepted, cfg.highSpeed)
      && trace == trace0 + (IdentifyCmds(rca) + ConfigCmds(rca, cfg.wideBus, accepted, cfg.highSpeed))
    }

    /** What cardInit leaves, given the operating-condition phase `p` it went through
        and the CID table `cids0`, maxBlock `maxBlock0`, Host Control `hc0` and trace
        `trace0` it started from: bus power on; the high-capacity flag from the last
        APP_OP_COND response of a version 2.00 card; a card that never got ready
        leaves the 400 kHz clock, the CID table and maxBlock as they were, and only
        the start and APP_OP_COND commands in the trace; a ready card is
        identified and configured. */
    ghost predicate InitOutcome(p: OpCond, slot: nat, cids0: seq<CardRegisters.Cid>, maxBlock0: nat, hc0: bv8, trace0: seq<Event>)
      reads this`issued, this`cids, this`rca, this`maxBlock, this`trace, this`isHighCapacity
      reads regs`clockControl, regs`powerControl, regs`blockSize, regs`blockCount, regs`hostControl
    {
      var trace1 := trace0 + (StartCmds() + OpCondCmds(p));
      isHighCapacity == (p.ready && !p.legacy && HighCapacity(dev.response(p.last)))
      && regs.powerControl == PowerControlValue(dev.caps)
      && (!p.ready ==>
            issued == p.last && trace == trace1 && cids == cids0 && maxBlock == maxBlock0
            && regs.clockControl == ClockWord(dev.caps, 400_000))
      && (p.ready ==> Configured(p.last, slot, cids0, maxBlock0, hc0, trace1))
    }

    /** The second half of cardInit, once the card is ready: identification,
        selection and the configuration switches. */
    method FinishCard(slot: nat)
      requires slot < |cids|
      modifies regs`argument, regs`transferMode, regs`command, regs`clockControl, regs`hostControl
      modifies regs`softwareReset, regs`blockSize, regs`blockCount
      modifies this`issued, this`trace, this`cids, this`rca, this`maxBlock
      ensures Configured(old(issued), slot, old(cids), old(maxBlock), old(regs.hostControl), old(trace))
      ensures cids == old(cids)[slot := CardRegisters.ParseCid(dev.response(old(issued) + 1))]
      ensures regs.transferMode == old(regs.transferMode)
    {
      Identify(slot);
      ghost var accepted := Configure();
      AppendPhases(old(trace), IdentifyCmds(rca), ConfigCmds(rca, cfg.wideBus, accepted, cfg.highSpeed));
    }

    /** The second half of cardInit runs only when the first one, going through the
        phase `p`, left the card ready; the other ghost parameters name the state
        cardInit started from. */
    method FinishIfReady(ready: bool, slot: nat, ghost p: OpCond, ghost cids0: seq<CardRegisters.Cid>,
                         ghost maxBlock0: nat, ghost hc0: bv8, ghost trace0: seq<Event>)
      requires Valid() && slot < |cids| && ready == p.ready
      requires issued == p.last && trace == trace0 + (StartCmds() + OpCondCmds(p))
      requires cids == cids0 && maxBlock == maxBlock0 && regs.hostControl == hc0
      requires isHighCapacity == (p.ready && !p.legacy && HighCapacity(dev.response(p.last)))
      requires regs.powerControl == PowerControlValue(dev.caps) && regs.clockControl == ClockWord(dev.caps, 400_000)
      modifies regs`argument, regs`transferMode, regs`command, regs`clockControl, regs`hostControl
      modifies regs`softwareReset, regs`blockSize, regs`blockCount
      modifies this`issued, this`trace, this`cids, this`rca, this`maxBlock
      ensures Valid()
      ensures InitOutcome(p, slot, cids0, maxBlock0, hc0, trace0)
      ensures cids == if p.ready then cids0[slot := CardRegisters.ParseCid(dev.response(p.last + 1))] else cids0
      ensures issued == InitIssued(cfg, p)
      ensures regs.transferMode == old(regs.transferMode)
    {
      if ready {
        FinishCard(slot);
      }
    }

    /** cardInit: bring a card from idle to transfer state at full speed. The
        400 kHz clock and bus power come first, then GO_IDLE_STATE and
        SEND_IF_COND; a card that leaves the CMD line busy is restarted and
        initialised the legacy way, any other one gets up to 80 rounds of
        APP_OP_COND asking for high capacity and fails if it never powers up.
        Identification, selection, the optional bus-width and high-speed switches
        and the 512-byte block size follow. The ghost parameters name the state
        the call starts from, so that callers can restate the outcome in their own
        terms. */
    method CardInit(slot: nat, ghost cids0: seq<CardRegisters.Cid>, ghost maxBlock0: nat,
                    ghost hc0: bv8, ghost trace0: seq<Event>) returns (ok: bool, ghost p: OpCond)
      requires Valid() && slot < 6
      requires cids == cids0 && maxBlock == maxBlock0 && regs.hostControl == hc0 && trace == trace0
      modifies regs`clockControl, regs`powerControl, regs`argument, regs`transferMode, regs`command
      modifies regs`softwareReset, regs`hostControl, regs`blockSize, regs`blockCount
      modifies this`clock, this`issued, this`trace, this`cids, this`rca, this`maxBlock, this`isHighCapacity
      ensures Valid()
      ensures p == OpCondPhase(dev, old(clock), old(issued) + 2) && ok == p.ready
      ensures InitOutcome(p, slot, cids0, maxBlock0, hc0, trace0)
      ensures cids == if p.ready then cids0[slot := CardRegisters.ParseCid(dev.response(p.last + 1))] else cids0
      ensures clock == old(clock) + LineWaitReads(dev, old(clock)) + 1 && issued == InitIssued(cfg, p)
    {
      ok, p := StartCard();
      FinishIfReady(ok, slot, p, cids0, maxBlock0, hc0, trace0);
    }

    // ---- PIO transfers ----

    /** The status write-back of the PIO reads: NormalIntStatus and ErrorIntStatus
        read as one 32-bit word and written back, clearing every pending bit. */
    method AckAll()
      modifies this`clock, regs`normalIntStatus, regs`errorIntStatus
      ensures clock == old(clock) + 1
      ensures regs.normalIntStatus == dev.intStatus(old(clock)) && regs.errorIntStatus == dev.errStatus(old(clock))
    {
      regs.normalIntStatus, regs.errorIntStatus := dev.intStatus(clock), dev.errStatus(clock);
      clock := clock + 1;
    }

    /** The write-back of NormalIntStatus after each block of writeBlockMulti_pio. */
    method AckNormal()
      modifies this`clock, regs`normalIntStatus
      ensures clock == old(clock) + 1 && regs.normalIntStatus == dev.intStatus(old(clock))
    {
      regs.normalIntStatus := dev.intStatus(clock);
      clock := clock + 1;
    }

    /** read_block_pio: 128 reads of the data port. */
    method ReadPortBlock() returns (words: seq<bv32>)
      modifies this`dataReads
      ensures words == PortWords(dev, old(dataReads), 128) && dataReads == old(dataReads) + 128
    {
      words := [];
      var j := 0;
      while j < 128
        invariant j <= 128 && dataReads == old(dataReads) + j
        invariant words == PortWords(dev, old(dataReads), j)
      {
        words := words + [dev.dataPort(dataReads)];
        dataReads := dataReads + 1;
        j := j + 1;
      }
    }

    /** The 128 writes of a staged block to the data port, each word taken from
        four bytes of the block. */
    method WritePortBlock(block: seq<bv8>)
      requires |block| == 512
      modifies regs`dataOut
      ensures regs.dataOut == old(regs.dataOut) + Words(block)
    {
      var words := Words(block);
      var j := 0;
      while j < 128
        invariant j <= 128 && regs.dataOut == old(regs.dataOut) + words[..j]
      {
        regs.dataOut := regs.dataOut + [words[j]];
        j := j + 1;
      }
    }

    /** What the set-up of readBlockMulti_pio for `nblks` blocks from card block
        `block`, started with `n` commands issued and the trace `trace0`, leaves:
        the reset work-around and READ_MULTIPLE_BLOCK sent; 512-byte blocks, the
        block count in 16 bits, the longest data timeout, every status enabled,
        and the transfer mode of READ_MULTIPLE_BLOCK. */
    ghost predicate ReadPrepared(block: nat, nblks: nat, n: nat, trace0: seq<Event>)
      reads this`issued, this`trace, this`isHighCapacity
      reads regs`blockSize, regs`blockCount, regs`timeoutControl, regs`normalIntStatusEn, regs`errorIntStatusEn, regs`transferMode
    {
      issued == n + 1
      && trace == trace0 + WarResets(cfg) + [Cmd(READ_MULTIPLE_BLOCK, SDCR18, AddressArg(isHighCapacity, block), true)]
      && regs.blockSize == 512 && regs.blockCount == Low16(nblks) && regs.timeoutControl == 0xE
      && regs.normalIntStatusEn == 0xFFFF && regs.errorIntStatusEn == 0xFFFF
      && regs.transferMode == ReadMode(defs, cfg)
    }

    /** The set-up of readBlockMulti_pio: resets, interrupt enables and clears, the
        timeout, the status write-back, 512-byte blocks, the block count in 16 bits,
        the transfer mode, and READ_MULTIPLE_BLOCK (which rewrites the transfer mode
        with the DMA bit of an SDMA build). */
    method StartMultiRead(block: nat, nblks: nat)
      modifies regs`softwareReset, regs`normalIntStatusEn, regs`errorIntStatusEn, regs`normalIntStatus
      modifies regs`errorIntStatus, regs`timeoutControl, regs`blockSize, regs`blockCount
      modifies regs`transferMode, regs`argument, regs`command, this`clock, this`issued, this`trace
      ensures clock == old(clock) + 1 && ReadPrepared(block, nblks, old(issued), old(trace))
    {
      ResetWar();
      regs.normalIntStatusEn, regs.errorIntStatusEn := 0xFFFF, 0xFFFF;
      regs.normalIntStatus := ReadAcks;
      regs.timeoutControl := 0xE;
      AckAll();
      regs.blockSize, regs.blockCount := 512, Low16(nblks);
      regs.transferMode := PioReadMode(defs);
      SdCommand(READ_MULTIPLE_BLOCK, SDCR18, AddressArg(isHighCapacity, block));
    }

    /** One block of readBlockMulti_pio: wait for Buffer Read Ready, then read the
        block from the data port and write it into the request buffer at block
        `offset + i`. `bytes0` and `reads0` are the buffer and the data port count
        when the routine started. */
    method ReadOneBlock(buffer: IoBuffer, i: nat, offset: nat, ghost bytes0: seq<bv8>, ghost reads0: nat) returns (ok: bool)
      requires Live(dev)
      requires buffer.bytes == ReadInto(bytes0, dev, reads0, offset, i) && dataReads == reads0 + 128 * i
      modifies buffer`bytes, this`clock, this`dataReads, regs`normalIntStatus
      ensures ok == OnceOk(dev, ForStatus(BuffReadReady), old(clock))
      ensures clock == OnceEnd(dev, ForStatus(BuffReadReady), old(clock))
      ensures !ok ==> dataReads == old(dataReads) && buffer.bytes == old(buffer.bytes)
      ensures ok ==> dataReads == reads0 + 128 * (i + 1) && buffer.bytes == ReadInto(bytes0, dev, reads0, offset, i + 1)
    {
      ok := WaitIntStatus(BuffReadReady);
      if ok {
        var words := ReadPortBlock();
        buffer.WriteBytes(U32((i + offset) * 512), Transfer.Bytes(words));
        ReadIntoNext(bytes0, dev, reads0, offset, i);
      }
    }

    /** The state of the block loop of readBlockMulti_pio after `i` rounds that all
        moved their block: the waits of the remaining rounds complete the run that
        started at read `t0`, and the data port count and the buffer (`reads0`
        and `bytes0` at the start) have moved on by `i` blocks. */
    ghost predicate ReadLoop(buffer: IoBuffer, nblks: nat, offset: nat, i: nat, t0: nat, bytes0: seq<bv8>, reads0: nat)
      reads this`clock, this`dataReads, buffer`bytes
    {
      Live(dev) && i <= nblks
      && After(i, BlockWaits(dev, ForStatus(BuffReadReady), clock, nblks - i)) == BlockWaits(dev, ForStatus(BuffReadReady), t0, nblks)
      && dataReads == reads0 + 128 * i && buffer.bytes == ReadInto(bytes0, dev, reads0, offset, i)
    }

    /** One round of the block loop: when its wait succeeds the loop goes on one
        block further, otherwise the run ends here. */
    method ReadStep(buffer: IoBuffer, nblks: nat, i: nat, offset: nat, ghost t0: nat, ghost bytes0: seq<bv8>, ghost reads0: nat)
      returns (ok: bool)
      requires ReadLoop(buffer, nblks, offset, i, t0, bytes0, reads0) && i < nblks
      modifies buffer`bytes, this`clock, this`dataReads, regs`normalIntStatus
      ensures ok ==> ReadLoop(buffer, nblks, offset, i + 1, t0, bytes0, reads0)
      ensures !ok ==>
        var r := BlockWaits(dev, ForStatus(BuffReadReady), t0, nblks);
        clock == r.end && r.blocks == i && dataReads == reads0 + 128 * i && buffer.bytes == ReadInto(bytes0, dev, reads0, offset, i)
    {
      WaitsStep(dev, ForStatus(BuffReadReady), clock, nblks - i);
      ok := ReadOneBlock(buffer, i, offset, bytes0, reads0);
    }

    /** The block loop of readBlockMulti_pio: a failed wait ends it. */
    method ReadBlocks(buffer: IoBuffer, nblks: nat, offset: nat) returns (ok: bool)
      requires Live(dev)
      modifies buffer`bytes, this`clock, this`dataReads, regs`normalIntStatus
      ensures var r := BlockWaits(dev, ForStatus(BuffReadReady), old(clock), nblks);
        clock == r.end && (ok <==> r.blocks == nblks) && dataReads == old(dataReads) + 128 * r.blocks
        && buffer.bytes == ReadInto(old(buffer.bytes), dev, old(dataReads), offset, r.blocks)
    {
      var i := 0;
      while i < nblks
        invariant ReadLoop(buffer, nblks, offset, i, old(clock), old(buffer.bytes), old(dataReads))
      {
        ok := ReadStep(buffer, nblks, i, offset, old(clock), old(buffer.bytes), old(dataReads));
        if !ok {
          return;
        }
        i := i + 1;
      }
      return true;
    }

    /** readBlockMulti_pio after its command has been waited for from read `t`,
        with outcome `cmdOk`: nothing more when that wait failed, otherwise the
        block loop and the wait for transfer complete. */
    method ReadAfterCommand(cmdOk: bool, buffer: IoBuffer, nblks: nat, offset: nat, ghost t: nat) returns (st: IoStatus)
      requires Live(dev) && cmdOk == WaitOk(dev, CmdComplete, t) && clock == WaitEnd(dev, CmdComplete, t)
      modifies buffer`bytes, this`clock, this`dataReads, regs`normalIntStatus
      ensures var run := MultiReadRun(dev, t, nblks);
        st == run.status && clock == run.end && dataReads == old(dataReads) + 128 * run.blocks
        && buffer.bytes == ReadInto(old(buffer.bytes), dev, old(dataReads), offset, run.blocks)
    {
      st := Error;
      if cmdOk {
        var ok := ReadBlocks(buffer, nblks, offset);
        if ok {
          var _ := WaitIntStatus(XferComplete);
          st := Success;
        }
      }
    }

    /** The data phase of readBlockMulti_pio from read `t`, with `k` data port
        words read and the request buffer holding `bytes0`, ended as
        MultiReadRun describes: its status and end, 128 words read per block
        it read, and those blocks put into the buffer from block `offset` on. */
    ghost predicate MultiRead(buffer: IoBuffer, nblks: nat, offset: nat, st: IoStatus, t: nat, k: nat, bytes0: seq<bv8>)
      reads this`clock, this`dataReads, buffer`bytes
    {
      Live(dev)
      && var run := MultiReadRun(dev, t, nblks);
         st == run.status && clock == run.end && dataReads == k + 128 * run.blocks
         && buffer.bytes == ReadInto(bytes0, dev, k, offset, run.blocks)
    }

    /** readBlockMulti_pio once its command is issued, from read `t` with `k`
        data port words read and the request buffer holding `bytes0`: the wait
        for the command, then the rest of the read. */
    method ReadAfterStart(buffer: IoBuffer, nblks: nat, offset: nat, ghost t: nat, ghost k: nat, ghost bytes0: seq<bv8>)
      returns (st: IoStatus)
      requires Live(dev) && clock == t && dataReads == k && buffer.bytes == bytes0
      modifies buffer`bytes, this`clock, this`dataReads, regs`normalIntStatus
      ensures MultiRead(buffer, nblks, offset, st, t, k, bytes0)
    {
      ghost var t := clock;
      var ok := WaitIntStatus(CmdComplete);
      st := ReadAfterCommand(ok, buffer, nblks, offset, t);
    }

    /** readBlockMulti_pio: read `nblks` blocks from card block `block` into the
        request buffer from block `offset` on, as MultiReadRun describes; the
        registers are set up as StartMultiRead says. */
    method ReadBlockMultiPio(buffer: IoBuffer, block: nat, nblks: nat, offset: nat) returns (st: IoStatus)
      requires Live(dev)
      modifies buffer`bytes, this`clock, this`dataReads, this`issued, this`trace
      modifies regs`softwareReset, regs`normalIntStatusEn, regs`errorIntStatusEn, regs`normalIntStatus
      modifies regs`errorIntStatus, regs`timeoutControl, regs`blockSize, regs`blockCount
      modifies regs`transferMode, regs`argument, regs`command
      ensures ReadPrepared(block, nblks, old(issued), old(trace))
      ensures MultiRead(buffer, nblks, offset, st, old(clock) + 1, old(dataReads), old(buffer.bytes))
    {
      StartMultiRead(block, nblks);
      st := ReadAfterStart(buffer, nblks, offset, old(clock) + 1, old(dataReads), old(buffer.bytes));
    }

    /** The registers a single-block PIO routine leaves set up: the transfer mode
        `mode`, the longest data timeout and every status enabled. */
    ghost predicate SinglePrepared(mode: bv16)
      reads regs`transferMode, regs`timeoutControl, regs`normalIntStatusEn, regs`errorIntStatusEn
    {
      regs.transferMode == mode && regs.timeoutControl == 0xE
      && regs.normalIntStatusEn == 0xFFFF && regs.errorIntStatusEn == 0xFFFF
    }

    /** The set-up of readBlockSingle_pio: resets, single-block transfer mode (bit
        4, Data Transfer Direction read), interrupt enables and clears, the
        timeout, the 32-bit status write-back and READ_SINGLE_BLOCK. */
    method StartSingleRead(block: nat)
      modifies regs`softwareReset, regs`transferMode, regs`normalIntStatusEn, regs`errorIntStatusEn
      modifies regs`normalIntStatus, regs`errorIntStatus, regs`timeoutControl, regs`argument, regs`command
      modifies this`clock, this`issued, this`trace
      ensures clock == old(clock) + 1 && issued == old(issued) + 1
      ensures trace == old(trace) + WarResets(cfg) + [Cmd(READ_SINGLE_BLOCK, SDCR17, AddressArg(isHighCapacity, block), true)]
      ensures SinglePrepared(0x10)
    {
      ResetWar();
      regs.transferMode := 0x10;
      regs.normalIntStatusEn, regs.errorIntStatusEn := 0xFFFF, 0xFFFF;
      regs.normalIntStatus := ReadAcks;
      regs.timeoutControl := 0xE;
      AckAll();
      SdCommand(READ_SINGLE_BLOCK, SDCR17, AddressArg(isHighCapacity, block));
    }

    /** The data phase of readBlockSingle_pio from read `t` with `k` data port
        words read, into the buffer `buff`, ended as SingleReadRun describes: its
        status and end, 128 words read when the block came, and the result the
        block read from the port then, `buff` otherwise. */
    ghost predicate SingleRead(st: IoStatus, out: seq<bv8>, buff: seq<bv8>, t: nat, k: nat)
      reads this`clock, this`dataReads
    {
      var run := SingleReadRun(dev, t);
      st == run.status && clock == run.end && dataReads == k + 128 * run.blocks
      && out == (if run.blocks == 1 then PortBlock(dev, k, 0) else buff)
    }

    /** readBlockSingle_pio once its command is issued: poll for Buffer Read Ready,
        read the block into the caller's 512-byte buffer `buff` when it comes, and
        clear the read status bits on every path. */
    method SingleReadBody(buff: seq<bv8>, ghost t: nat, ghost k: nat) returns (st: IoStatus, out: seq<bv8>)
      requires clock == t && dataReads == k
      modifies this`clock, this`dataReads, regs`normalIntStatus
      ensures SingleRead(st, out, buff, t, k)
      ensures regs.normalIntStatus == ReadAcks
    {
      var r := PollFor(StatusAll(BuffReadReady));
      if r == Ready {
        var words := ReadPortBlock();
        out := Transfer.Bytes(words);
        st := Success;
      } else {
        out := buff;
        st := Error;
      }
      regs.normalIntStatus := ReadAcks;
    }

    /** readBlockSingle_pio: read card block `block` into the 512-byte buffer
        `buff`, which keeps its bytes when the read fails. */
    method ReadBlockSinglePio(buff: seq<bv8>, block: nat) returns (st: IoStatus, out: seq<bv8>)
      modifies regs`softwareReset, regs`transferMode, regs`normalIntStatusEn, regs`errorIntStatusEn
      modifies regs`normalIntStatus, regs`errorIntStatus, regs`timeoutControl, regs`argument, regs`command
      modifies this`clock, this`issued, this`trace, this`dataReads
      ensures issued == old(issued) + 1
      ensures trace == old(trace) + WarResets(cfg) + [Cmd(READ_SINGLE_BLOCK, SDCR17, AddressArg(isHighCapacity, block), true)]
      ensures SinglePrepared(0x10) && regs.normalIntStatus == ReadAcks
      ensures SingleRead(st, out, buff, old(clock) + 1, old(dataReads))
    {
      StartSingleRead(block);
      st, out := SingleReadBody(buff, old(clock) + 1, old(dataReads));
    }

    /** The set-up of writeBlockSingle_pio: resets, transfer mode 0 (a single
        block written to the card), interrupt enables and clears, the timeout and
        WRITE_BLOCK. */
    method StartSingleWrite(block: nat)
      modifies regs`softwareReset, regs`transferMode, regs`normalIntStatusEn, regs`errorIntStatusEn
      modifies regs`normalIntStatus, regs`timeoutControl, regs`argument, regs`command
      modifies this`issued, this`trace
      ensures issued == old(issued) + 1
      ensures trace == old(trace) + WarResets(cfg) + [Cmd(WRITE_BLOCK, SDCR24, AddressArg(isHighCapacity, block), true)]
      ensures SinglePrepared(0) && regs.normalIntStatus == WriteAcks
    {
      ResetWar();
      regs.transferMode := 0;
      regs.normalIntStatusEn, regs.errorIntStatusEn := 0xFFFF, 0xFFFF;
      regs.normalIntStatus := WriteAcks;
      regs.timeoutControl := 0xE;
      SdCommand(WRITE_BLOCK, SDCR24, AddressArg(isHighCapacity, block));
    }

    /** writeBlockSingle_pio once its command is issued: poll for Buffer Write
        Ready, write the staged block to the data port, poll for transfer complete
        and clear the write status bits when it comes. */
    method SingleWriteBody(staged: seq<bv8>) returns (st: IoStatus)
      requires |staged| == 512
      modifies this`clock, regs`dataOut, regs`normalIntStatus
      ensures var run := SingleWriteRun(dev, old(clock));
        st == run.status && clock == run.end
        && regs.dataOut == old(regs.dataOut) + (if run.blocks == 1 then Words(staged) else [])
        && regs.normalIntStatus == (if st == Success then WriteAcks else old(regs.normalIntStatus))
    {
      var r := PollFor(StatusAll(BuffWriteReady));
      if r != Ready {
        return Error;
      }
      WritePortBlock(staged);
      var r2 := PollFor(StatusAll(XferComplete));
      if r2 != Ready {
        return Error;
      }
      regs.normalIntStatus := WriteAcks;
      st := Success;
    }

    /** writeBlockSingle_pio: write block `offset` of the request buffer to card
        block `block`. The block is staged in a 512-byte buffer first, whose bytes
        beyond the end of the request buffer are the `stale` ones it held. */
    method WriteBlockSinglePio(buffer: IoBuffer, block: nat, offset: nat, stale: seq<bv8>) returns (st: IoStatus)
      requires |stale| == 512
      modifies regs`softwareReset, regs`transferMode, regs`normalIntStatusEn, regs`errorIntStatusEn
      modifies regs`normalIntStatus, regs`timeoutControl, regs`argument, regs`command, regs`dataOut
      modifies this`clock, this`issued, this`trace
      ensures issued == old(issued) + 1
      ensures trace == old(trace) + WarResets(cfg) + [Cmd(WRITE_BLOCK, SDCR24, AddressArg(isHighCapacity, block), true)]
      ensures SinglePrepared(0) && regs.normalIntStatus == WriteAcks
      ensures var run := SingleWriteRun(dev, old(clock));
        st == run.status && clock == run.end
        && regs.dataOut == old(regs.dataOut) + StagedWords(buffer.bytes, offset, run.blocks, stale)
    {
      var data := buffer.ReadBytes(U32(offset * 512), 512);
      StagedFirst(buffer.bytes, offset, stale);
      StartSingleWrite(block);
      st := SingleWriteBody(Overwrite(stale, 0, data));
    }

    /** What the set-up of writeBlockMulti_pio for `nblks` blocks to card block
        `block`, started with `n` commands issued and the trace `trace0`, leaves:
        the reset work-around, APP_CMD, the block count to pre-erase and
        WRITE_MULTIPLE_BLOCK sent; 512-byte blocks, the block count in 16 bits,
        the longest data timeout, every status enabled, and the transfer mode of
        WRITE_MULTIPLE_BLOCK. */
    ghost predicate WritePrepared(block: nat, nblks: nat, n: nat, trace0: seq<Event>)
      reads this`issued, this`trace, this`rca, this`isHighCapacity
      reads regs`blockSize, regs`blockCount, regs`timeoutControl, regs`normalIntStatusEn, regs`errorIntStatusEn, regs`transferMode
    {
      issued == n + 3
      && trace == trace0 + WarResets(cfg) + [Cmd(APP_CMD, SDCR55, RcaArg(rca), true),
           Cmd(APP_SET_WR_BLK_ERASE_COUNT, SDCR23, Word32(nblks), true),
           Cmd(WRITE_MULTIPLE_BLOCK, SDCR24, AddressArg(isHighCapacity, block), true)]
      && regs.blockSize == 512 && regs.blockCount == Low16(nblks) && regs.timeoutControl == 0xE
      && regs.normalIntStatusEn == 0xFFFF && regs.errorIntStatusEn == 0xFFFF
      && regs.transferMode == WriteMode(defs, cfg)
    }

    /** The commands of writeBlockMulti_pio: APP_CMD to the card, the block count
        to pre-erase (ACMD23), and WRITE_MULTIPLE_BLOCK sent with the response code
        of WRITE_BLOCK. */
    method WriteCommands(block: nat, nblks: nat)
      modifies regs`argument, regs`transferMode, regs`command, this`issued, this`trace
      ensures issued == old(issued) + 3
      ensures trace == old(trace) + [Cmd(APP_CMD, SDCR55, RcaArg(rca), true),
        Cmd(APP_SET_WR_BLK_ERASE_COUNT, SDCR23, Word32(nblks), true),
        Cmd(WRITE_MULTIPLE_BLOCK, SDCR24, AddressArg(isHighCapacity, block), true)]
      ensures regs.transferMode == WriteMode(defs, cfg)
    {
      SdCommand(APP_CMD, SDCR55, RcaArg(rca));
      SdCommand(APP_SET_WR_BLK_ERASE_COUNT, SDCR23, Word32(nblks));
      SdCommand(WRITE_MULTIPLE_BLOCK, SDCR24, AddressArg(isHighCapacity, block));
    }

    /** The set-up of writeBlockMulti_pio: resets, interrupt enables and clears, the
        timeout, 512-byte blocks, the block count in 16 bits and the commands. */
    method StartMultiWrite(block: nat, nblks: nat)
      modifies regs`softwareReset, regs`normalIntStatusEn, regs`errorIntStatusEn, regs`normalIntStatus
      modifies regs`timeoutControl, regs`blockSize, regs`blockCount
      modifies regs`transferMode, regs`argument, regs`command, this`issued, this`trace
      ensures WritePrepared(block, nblks, old(issued), old(trace)) && regs.normalIntStatus == WriteAcks
    {
      ResetWar();
      regs.normalIntStatusEn, regs.errorIntStatusEn := 0xFFFF, 0xFFFF;
      regs.normalIntStatus := WriteAcks;
      regs.timeoutControl := 0xE;
      regs.blockSize, regs.blockCount := 512, Low16(nblks);
      WriteCommands(block, nblks);
    }

    /** The wait before each block of writeBlockMulti_pio: the bounded poll for
        Space Available in PresentState, then the write-back of NormalIntStatus. */
    method SpaceWait() returns (ok: bool)
      requires Live(dev)
      modifies this`clock, regs`normalIntStatus
      ensures ok == OnceOk(dev, ForSpace(defs.spaceAvailable), old(clock))
      ensures clock == OnceEnd(dev, ForSpace(defs.spaceAvailable), old(clock))
    {
      var r := PollFor(PresentAny(defs.spaceAvailable));
      ok := r == Ready;
      if ok {
        AckNormal();
      }
    }

    /** The state of the block loop of writeBlockMulti_pio after `i` rounds that all
        sent their block: the waits of the remaining rounds complete the run that
        started at read `t0`, the data port has received the first `i` staged
        blocks after `out0`, and the staging block holds the last of them (the
        `stale` bytes before the first). */
    ghost predicate WriteLoop(bytes: seq<bv8>, nblks: nat, offset: nat, stale: seq<bv8>, i: nat, staged: seq<bv8>,
                              t0: nat, out0: seq<bv32>)
      requires Live(dev) && |stale| == 512
      reads this`clock, regs`dataOut
    {
      i <= nblks
      && After(i, BlockWaits(dev, ForSpace(defs.spaceAvailable), clock, nblks - i)) == BlockWaits(dev, ForSpace(defs.spaceAvailable), t0, nblks)
      && regs.dataOut == out0 + StagedWords(bytes, offset, i, stale)
      && staged == Staging(bytes, offset, i, stale)
    }

    /** How the block loop of writeBlockMulti_pio ended, started at read `t0` with
        `out0` written to the data port: the block waits from `t0` decide the read
        clock, whether every block went through (`ok`), and how many staged blocks
        the data port received. */
    ghost predicate WriteDone(bytes: seq<bv8>, nblks: nat, offset: nat, stale: seq<bv8>, t0: nat, out0: seq<bv32>, ok: bool)
      requires Live(dev) && |stale| == 512
      reads this`clock, regs`dataOut
    {
      var r := BlockWaits(dev, ForSpace(defs.spaceAvailable), t0, nblks);
      clock == r.end && (ok <==> r.blocks == nblks) && regs.dataOut == out0 + StagedWords(bytes, offset, r.blocks, stale)
    }

    /** One round of the block loop: stage block `offset + i` of the request buffer,
        wait for space, and send the block when the wait succeeds. */
    method WriteStep(buffer: IoBuffer, nblks: nat, offset: nat, stale: seq<bv8>, i: nat, staged: seq<bv8>,
                     ghost t0: nat, ghost out0: seq<bv32>) returns (ok: bool, next: seq<bv8>)
      requires Live(dev) && |stale| == 512
      requires WriteLoop(buffer.bytes, nblks, offset, stale, i, staged, t0, out0) && i < nblks
      modifies this`clock, regs`normalIntStatus, regs`dataOut
      ensures ok ==> WriteLoop(buffer.bytes, nblks, offset, stale, i + 1, next, t0, out0)
      ensures !ok ==> WriteDone(buffer.bytes, nblks, offset, stale, t0, out0, false)
    {
      var data := buffer.ReadBytes(U32((offset + i) * 512), 512);
      next := Overwrite(staged, 0, data);
      StagedNext(buffer.bytes, offset, i, stale);
      ok := SpaceStep(nblks, i, t0);
      if ok {
        SendBlock(buffer.bytes, offset, stale, i, next, out0);
      }
    }

    /** The wait before block `i` of a write whose block waits started at read
        `t0`: when it succeeds the run goes on, otherwise it ends here. */
    method SpaceStep(nblks: nat, i: nat, ghost t0: nat) returns (ok: bool)
      requires Live(dev) && i < nblks
      requires After(i, BlockWaits(dev, ForSpace(defs.spaceAvailable), clock, nblks - i)) == BlockWaits(dev, ForSpace(defs.spaceAvailable), t0, nblks)
      modifies this`clock, regs`normalIntStatus
      ensures ok ==> After(i + 1, BlockWaits(dev, ForSpace(defs.spaceAvailable), clock, nblks - (i + 1))) == BlockWaits(dev, ForSpace(defs.spaceAvailable), t0, nblks)
      ensures !ok ==> clock == BlockWaits(dev, ForSpace(defs.spaceAvailable), t0, nblks).end && BlockWaits(dev, ForSpace(defs.spaceAvailable), t0, nblks).blocks == i
    {
      WaitsStep(dev, ForSpace(defs.spaceAvailable), clock, nblks - i);
      ok := SpaceWait();
    }

    /** Sending block `i` of a write: after the first `i` staged blocks, the data
        port receives the staging block holding block `offset + i`. */
    method SendBlock(ghost bytes: seq<bv8>, ghost offset: nat, ghost stale: seq<bv8>, ghost i: nat, next: seq<bv8>, ghost out0: seq<bv32>)
      requires |stale| == 512 && next == Staging(bytes, offset, i + 1, stale)
      requires regs.dataOut == out0 + StagedWords(bytes, offset, i, stale)
      modifies regs`dataOut
      ensures regs.dataOut == out0 + StagedWords(bytes, offset, i + 1, stale)
    {
      WritePortBlock(next);
      StagedNext(bytes, offset, i, stale);
      assert out0 + StagedWords(bytes, offset, i, stale) + Words(next) == out0 + (StagedWords(bytes, offset, i, stale) + Words(next));
    }

    /** A block loop that went through all its rounds ended well. */
    lemma WriteLoopDone(bytes: seq<bv8>, nblks: nat, offset: nat, stale: seq<bv8>, staged: seq<bv8>, t0: nat, out0: seq<bv32>)
      requires Live(dev) && |stale| == 512 && WriteLoop(bytes, nblks, offset, stale, nblks, staged, t0, out0)
      ensures WriteDone(bytes, nblks, offset, stale, t0, out0, true)
    {
    }

    /** The block loop of writeBlockMulti_pio: a failed wait ends it. */
    method WriteBlocks(buffer: IoBuffer, nblks: nat, offset: nat, stale: seq<bv8>) returns (ok: bool)
      requires Live(dev) && |stale| == 512
      modifies this`clock, regs`normalIntStatus, regs`dataOut
      ensures WriteDone(buffer.bytes, nblks, offset, stale, old(clock), old(regs.dataOut), ok)
    {
      var staged := stale;
      var i := 0;
      while i < nblks
        invariant WriteLoop(buffer.bytes, nblks, offset, stale, i, staged, old(clock), old(regs.dataOut))
      {
        ok, staged := WriteStep(buffer, nblks, offset, stale, i, staged, old(clock), old(regs.dataOut));
        if !ok {
          return;
        }
        i := i + 1;
      }
      WriteLoopDone(buffer.bytes, nblks, offset, stale, staged, old(clock), old(regs.dataOut));
      return true;
    }

    /** The data phase of writeBlockMulti_pio from read `t`, with the words
        `out0` already written to the data port, moving `nblks` blocks of the
        request buffer from block `offset` on with the staging block holding
        `stale`, ended as MultiWriteRun describes: its status and end, the
        staged words of the blocks it wrote appended to the data port, and the
        write acknowledgements cleared after a success. */
    ghost predicate MultiWritten(buffer: IoBuffer, nblks: nat, offset: nat, stale: seq<bv8>, st: IoStatus, t: nat, out0: seq<bv32>)
      reads this`clock, regs`dataOut, regs`normalIntStatus, buffer`bytes
    {
      Live(dev) && |stale| == 512
      && var run := MultiWriteRun(dev, defs.spaceAvailable, t, nblks);
         st == run.status && clock == run.end
         && regs.dataOut == out0 + StagedWords(buffer.bytes, offset, run.blocks, stale)
         && (st == Success ==> regs.normalIntStatus == WriteAcks)
    }

    /** writeBlockMulti_pio once its commands are issued, from read `t` with the
        words `out0` already written: the block loop, then the bounded poll for
        transfer complete, and the write status bits cleared when it comes. */
    method WriteAfterStart(buffer: IoBuffer, nblks: nat, offset: nat, stale: seq<bv8>, ghost t: nat, ghost out0: seq<bv32>)
      returns (st: IoStatus)
      requires Live(dev) && |stale| == 512 && clock == t && regs.dataOut == out0
      modifies this`clock, regs`normalIntStatus, regs`dataOut
      ensures MultiWritten(buffer, nblks, offset, stale, st, t, out0)
    {
      var ok := WriteBlocks(buffer, nblks, offset, stale);
      if !ok {
        return Error;
      }
      var r := PollFor(StatusAll(XferComplete));
      if r != Ready {
        return Error;
      }
      regs.normalIntStatus := WriteAcks;
      st := Success;
    }

    /** writeBlockMulti_pio: write `nblks` blocks of the request buffer from block
        `offset` on to card blocks from `block` on, as MultiWriteRun describes; the
        staging block starts out holding the `stale` bytes. */
    method WriteBlockMultiPio(buffer: IoBuffer, block: nat, nblks: nat, offset: nat, stale: seq<bv8>) returns (st: IoStatus)
      requires Live(dev) && |stale| == 512
      modifies regs`softwareReset, regs`normalIntStatusEn, regs`errorIntStatusEn, regs`normalIntStatus
      modifies regs`timeoutControl, regs`blockSize, regs`blockCount, regs`dataOut
      modifies regs`transferMode, regs`argument, regs`command, this`clock, this`issued, this`trace
      ensures WritePrepared(block, nblks, old(issued), old(trace))
      ensures MultiWritten(buffer, nblks, offset, stale, st, old(clock), old(regs.dataOut))
    {
      StartMultiWrite(block, nblks);
      st := WriteAfterStart(buffer, nblks, offset, stale, old(clock), old(regs.dataOut));
    }
  
    // ---- SDMA transfers ----

    /** The registers sdma_access leaves set up for its transfer: the longest data
        timeout, every status enabled, the bounce buffer's address, 512-byte blocks
        with the 32 KiB buffer boundary, the block count in 16 bits, and the
        transfer mode of the multi-block command. */
    ghost predicate SdmaPrepared(nblks: nat, read: bool)
      reads regs`timeoutControl, regs`normalIntStatusEn, regs`errorIntStatusEn, regs`sdmaSysAddr
      reads regs`blockSize, regs`blockCount, regs`transferMode
    {
      regs.timeoutControl == 0xE && regs.normalIntStatusEn == 0xFFFF && regs.errorIntStatusEn == 0xFFFF
      && regs.sdmaSysAddr == sdmaAddr && regs.blockSize == SdmaBlockSize && regs.blockCount == Low16(nblks)
      && regs.transferMode == (if read then ReadMode(defs, cfg) else WriteMode(defs, cfg))
    }

    /** The set-up of sdma_access: the resets, the first fill of the bounce
        buffer on a write, the timeout, the interrupt enables, the status clears,
        the bounce buffer's address, the block size and count, and the multi-block
        command. */
    method StartSdma(block: nat, nblks: nat, read: bool)
      modifies regs`softwareReset, regs`timeoutControl, regs`normalIntSignalEn, regs`normalIntStatusEn
      modifies regs`errorIntSignalEn, regs`errorIntStatusEn, regs`normalIntStatus, regs`errorIntStatus
      modifies regs`sdmaSysAddr, regs`blockSize, regs`blockCount, regs`transferMode, regs`argument, regs`command
      modifies this`issued, this`trace
      ensures issued == old(issued) + 1
      ensures trace == old(trace) + SdmaSetUp(cfg, read, isHighCapacity, block, nblks)
      ensures SdmaPrepared(nblks, read) && SdmaSignalled()
    {
      FirstFill(nblks, read);
      EnableSdmaInterrupts();
      PointSdma(nblks);
      IssueSdma(block, read);
      AppendFour(old(trace), WarResets(cfg), if read then [] else Fills(nblks, 0, 1), [SdmaCommand(read, isHighCapacity, block)]);
    }

    /** The interrupt set-up of sdma_access: every interrupt signalled and every
        status enabled, the pending status cleared, and the longest data timeout. */
    ghost predicate SdmaSignalled()
      reads regs`normalIntSignalEn, regs`errorIntSignalEn, regs`normalIntStatus, regs`errorIntStatus
    {
      regs.normalIntSignalEn == 0x1FF && regs.errorIntSignalEn == 0x1FF
      && regs.normalIntStatus == ReadAcks && regs.errorIntStatus == 0xF3FF
    }

    /** The resets, and on a write the first fill of the bounce buffer. */
    method FirstFill(nblks: nat, read: bool)
      modifies regs`softwareReset, this`trace
      ensures trace == old(trace) + WarResets(cfg) + (if read then [] else Fills(nblks, 0, 1))
    {
      ResetWar();
      if !read {
        trace := trace + [FromBuffer(U32(0 * 512), FillLength(nblks, 0))];
      }
    }

    method EnableSdmaInterrupts()
      modifies regs`timeoutControl, regs`normalIntSignalEn, regs`normalIntStatusEn
      modifies regs`errorIntSignalEn, regs`errorIntStatusEn, regs`normalIntStatus, regs`errorIntStatus
      ensures regs.timeoutControl == 0xE && regs.normalIntStatusEn == 0xFFFF && regs.errorIntStatusEn == 0xFFFF
      ensures SdmaSignalled()
    {
      regs.timeoutControl := 0xE;
      regs.normalIntSignalEn, regs.normalIntStatusEn := 0x1FF, 0xFFFF;
      regs.errorIntSignalEn, regs.errorIntStatusEn := 0x1FF, 0xFFFF;
      regs.normalIntStatus, regs.errorIntStatus := ReadAcks, 0xF3FF;
    }

    /** The bounce buffer's address, the block size with the 32 KiB buffer
        boundary, and the block count in 16 bits. */
    method PointSdma(nblks: nat)
      modifies regs`sdmaSysAddr, regs`blockSize, regs`blockCount
      ensures regs.sdmaSysAddr == sdmaAddr && regs.blockSize == SdmaBlockSize && regs.blockCount == Low16(nblks)
    {
      regs.sdmaSysAddr := sdmaAddr;
      regs.blockSize, regs.blockCount := SdmaBlockSize, Low16(nblks);
    }

    /** READ_MULTIPLE_BLOCK or WRITE_MULTIPLE_BLOCK, which sets the transfer mode. */
    method IssueSdma(block: nat, read: bool)
      modifies regs`transferMode, regs`argument, regs`command, this`issued, this`trace
      ensures issued == old(issued) + 1 && trace == old(trace) + [SdmaCommand(read, isHighCapacity, block)]
      ensures regs.transferMode == (if read then ReadMode(defs, cfg) else WriteMode(defs, cfg))
    {
      if read {
        SdCommand(READ_MULTIPLE_BLOCK, SDCR18, AddressArg(isHighCapacity, block));
      } else {
        SdCommand(WRITE_MULTIPLE_BLOCK, SDCR18, AddressArg(isHighCapacity, block));
      }
    }

    /** A full reset: SoftwareReset written with FULL_RESET. */
    method FullReset()
      modifies regs`softwareReset, this`trace
      ensures regs.softwareReset == 0 && trace == old(trace) + [ResetIssued(FULL_RESET)]
    {
      Reset(FULL_RESET);
    }

    /** The recovery of sdma_access and reportMediaState: a full reset, then
        cardInit(0); `ok` says whether the card came back. */
    method ResetAndInit() returns (ok: bool, ghost p: OpCond)
      requires Valid()
      modifies regs`clockControl, regs`powerControl, regs`argument, regs`transferMode, regs`command
      modifies regs`softwareReset, regs`hostControl, regs`blockSize, regs`blockCount
      modifies this`clock, this`issued, this`trace, this`cids, this`rca, this`maxBlock, this`isHighCapacity
      ensures Valid()
      ensures p == OpCondPhase(dev, old(clock), old(issued) + 2) && ok == p.ready
      ensures InitOutcome(p, 0, old(cids), old(maxBlock), old(regs.hostControl), old(trace) + [ResetIssued(FULL_RESET)])
      ensures clock == old(clock) + LineWaitReads(dev, old(clock)) + 1 && issued == InitIssued(cfg, p)
    {
      FullReset();
      assert OpCondPhase(dev, clock, issued + 2) == OpCondPhase(dev, old(clock), old(issued) + 2);
      ok, p := CardInit(0, old(cids), old(maxBlock), old(regs.hostControl), old(trace) + [ResetIssued(FULL_RESET)]);
    }

    /** The state of the SDMA loop after `k` DMA interrupts: the loop from the
        current read clock, with `k` more interrupts, is the loop that started at
        read `t0`, and the copies and counters have kept up (SdmaCopied). */
    ghost predicate SdmaGoing(read: bool, nblks: nat, k: nat, offset: nat, left: nat, t0: nat, trace0: seq<Event>)
      requires Live(dev)
      reads this`clock, this`trace, regs`normalIntStatus
    {
      Served(k, SdmaWait(dev, clock)) == SdmaWait(dev, t0) && SdmaCopied(read, nblks, k, offset, left, trace0)
    }

    /** The SDMA loop has served `k` DMA interrupts: the offset (in blocks) and,
        on a read, the blocks left have moved on with each of them in 32 bits, the
        copies so far follow `trace0`, and the last interrupt has been cleared. */
    ghost predicate SdmaCopied(read: bool, nblks: nat, k: nat, offset: nat, left: nat, trace0: seq<Event>)
      reads this`trace, regs`normalIntStatus
    {
      offset == (if read then U32(64 * k) else FillEnd(nblks, FillBlocks(nblks, 0), k))
      && (read ==> left == U32(nblks - 64 * k))
      && trace == trace0 + SdmaServed(read, nblks, k)
      && (k > 0 ==> regs.normalIntStatus == DMAInterrupt)
    }

    /** How the SDMA loop started at read `t0` ended: as SdmaWait says, with its
        copies after `trace0` and the interrupt status it last cleared. */
    ghost predicate SdmaDone(read: bool, nblks: nat, t0: nat, trace0: seq<Event>, st: IoStatus)
      requires Live(dev)
      reads this`clock, this`trace, regs`normalIntStatus
    {
      var r := SdmaWait(dev, t0);
      st == r.status && clock == r.end && trace == trace0 + SdmaCopies(read, nblks, r)
      && (st == Success ==> regs.normalIntStatus == XferComplete | DMAInterrupt)
      && (st != Success && r.interrupts > 0 ==> regs.normalIntStatus == DMAInterrupt)
    }

    /** The service of one DMA interrupt: on a read, copy the full bounce buffer
        out to the current offset and move the offset and the blocks left on by
        64; on a write, refill the bounce buffer from the current offset; then
        clear the interrupt and give the controller the bounce buffer again. */
    method ServeDma(read: bool, nblks: nat, ghost k: nat, offset: nat, left: nat, ghost trace0: seq<Event>)
      returns (offset': nat, left': nat)
      requires SdmaCopied(read, nblks, k, offset, left, trace0)
      modifies this`trace, regs`normalIntStatus, regs`sdmaSysAddr
      ensures SdmaCopied(read, nblks, k + 1, offset', left', trace0) && regs.sdmaSysAddr == sdmaAddr
    {
      if read {
        trace := trace + [ToBuffer(U32(offset * 512), SdmaBufferSize)];
        offset', left' := U32(offset + 64), U32(left - 64);
        ReadCopiesStep(k);
        ReadCountersStep(nblks, k);
      } else {
        trace := trace + [FromBuffer(U32(offset * 512), FillLength(nblks, offset))];
        offset', left' := offset + FillBlocks(nblks, offset), left;
        FillsStep(nblks, FillBlocks(nblks, 0), k);
      }
      regs.normalIntStatus := DMAInterrupt;
      regs.sdmaSysAddr := sdmaAddr;
    }

    /** One round of the SDMA loop: its status reads decide whether the loop
        ends, and a DMA interrupt shown after the sleep is served. */
    method SdmaRound(read: bool, nblks: nat, ghost k: nat, offset: nat, left: nat, ghost t0: nat, ghost trace0: seq<Event>)
      returns (going: bool, st: IoStatus, offset': nat, left': nat, ghost k': nat)
      requires Live(dev) && SdmaGoing(read, nblks, k, offset, left, t0, trace0) && regs.sdmaSysAddr == sdmaAddr
      modifies this`clock, this`trace, regs`normalIntStatus, regs`sdmaSysAddr
      ensures regs.sdmaSysAddr == sdmaAddr
      ensures going ==> SdmaGoing(read, nblks, k', offset', left', t0, trace0) && clock > old(clock)
      ensures !going ==> SdmaDone(read, nblks, t0, trace0, st)
    {
      offset', left', k' := offset, left, k;
      var dma;
      ghost var t := clock;
      going, st, dma := SdmaChecks(read, nblks, k, offset, left, t0, trace0);
      if going {
        offset', left', k' := SdmaNext(read, nblks, k, offset, left, t, t0, trace0, dma);
      }
    }

    /** A round of the SDMA loop started at read `t` went on: the DMA interrupt
        its status read after the sleep showed, if any, is served, and the loop
        goes on from here. */
    method SdmaNext(read: bool, nblks: nat, ghost k: nat, offset: nat, left: nat, ghost t: nat, ghost t0: nat, ghost trace0: seq<Event>, dma: bool)
      returns (offset': nat, left': nat, ghost k': nat)
      requires Live(dev) && Served(k, SdmaWait(dev, t)) == SdmaWait(dev, t0) && SdmaCopied(read, nblks, k, offset, left, trace0)
      requires GoesOn(dev, t) && clock == t + 3 && dma == AnyOf(dev.intStatus(t + 2), DMAInterrupt)
      requires regs.sdmaSysAddr == sdmaAddr
      modifies this`trace, regs`normalIntStatus, regs`sdmaSysAddr
      ensures regs.sdmaSysAddr == sdmaAddr
      ensures SdmaGoing(read, nblks, k', offset', left', t0, trace0)
    {
      offset', left', k' := offset, left, k;
      SdmaWaitNext(dev, t, t0, k);
      if dma {
        offset', left' := ServeDma(read, nblks, k, offset, left, trace0);
        k' := k + 1;
      }
    }

    /** The status reads of one round of the SDMA loop: an error bit ends the
        loop with an error, a sleep that reaches the deadline with a timeout, and
        transfer complete after the sleep with success (copying out the blocks
        left, on a read); otherwise the round goes on, and `dma` says whether the
        status read after the sleep shows a DMA interrupt. */
    method SdmaChecks(read: bool, nblks: nat, ghost k: nat, offset: nat, left: nat, ghost t0: nat, ghost trace0: seq<Event>)
      returns (going: bool, st: IoStatus, dma: bool)
      requires Live(dev) && SdmaGoing(read, nblks, k, offset, left, t0, trace0)
      modifies this`clock, this`trace, regs`normalIntStatus
      ensures !going ==> SdmaDone(read, nblks, t0, trace0, st)
      ensures going ==>
        GoesOn(dev, old(clock)) && clock == old(clock) + 3 && dma == AnyOf(dev.intStatus(old(clock) + 2), DMAInterrupt)
        && trace == old(trace) && regs.normalIntStatus == old(regs.normalIntStatus)
    {
      if Errored(dev.intStatus(clock)) {
        clock := clock + 1;
        return false, Error, false;
      }
      if dev.timedOut(clock + 1) {
        clock := clock + 2;
        return false, Timeout, false;
      }
      var nis := dev.intStatus(clock + 2);
      clock := clock + 3;
      if AnyOf(nis, XferComplete) {
        SdmaComplete(read, nblks, k, offset, left, t0, trace0);
        return false, Success, false;
      }
      going, st, dma := true, Error, AnyOf(nis, DMAInterrupt);
    }

    /** Transfer complete: on a read, copy the blocks left out of the bounce
        buffer at the current offset; then clear the status. */
    method SdmaComplete(read: bool, nblks: nat, ghost k: nat, offset: nat, left: nat, ghost t0: nat, ghost trace0: seq<Event>)
      requires Live(dev) && SdmaCopied(read, nblks, k, offset, left, trace0)
      requires SdmaWait(dev, t0) == DmaEnd(Success, clock, k)
      modifies this`trace, regs`normalIntStatus
      ensures SdmaDone(read, nblks, t0, trace0, Success)
    {
      if read {
        trace := trace + [ToBuffer(U32(offset * 512), U32(left * 512))];
      }
      regs.normalIntStatus := XferComplete | DMAInterrupt;
    }

    /** The SDMA loop of sdma_access from the current read clock, as SdmaWait
        describes it. */
    method SdmaLoop(read: bool, nblks: nat) returns (st: IoStatus)
      requires Live(dev) && nblks < Two32 && regs.sdmaSysAddr == sdmaAddr
      modifies this`clock, this`trace, regs`normalIntStatus, regs`sdmaSysAddr
      ensures SdmaDone(read, nblks, old(clock), old(trace), st) && regs.sdmaSysAddr == sdmaAddr
    {
      var offset: nat := if read then 0 else FillBlocks(nblks, 0);
      var left: nat := nblks;
      ghost var k: nat := 0;
      var going := true;
      st := Error;
      while going
        invariant going ==> SdmaGoing(read, nblks, k, offset, left, old(clock), old(trace))
        invariant !going ==> SdmaDone(read, nblks, old(clock), old(trace), st)
        invariant regs.sdmaSysAddr == sdmaAddr
        invariant going ==> clock < SdmaWait(dev, old(clock)).end
        decreases if going then SdmaWait(dev, old(clock)).end - clock else 0
      {
        going, st, offset, left, k := SdmaRound(read, nblks, k, offset, left, old(clock), old(trace));
      }
    }

    /** How sdma_access ended after `run`, with `n` commands issued, the trace
        `trace0`, the card presence `presence0`, the CID table `cids0`, maxBlock
        `maxBlock0` and Host Control `hc0` once its command was written: the status
        of the run; after a command timeout, what the full reset and cardInit(0)
        left (Recovered), with the read clock and command count cardInit ends
        at; otherwise the read clock of the run, the loop's copies after `trace0`, and on success the
        completion status cleared. */
    ghost predicate SdmaOver(read: bool, nblks: nat, run: SdmaRun, st: IoStatus, n: nat, trace0: seq<Event>, presence0: Presence,
                             cids0: seq<CardRegisters.Cid>, maxBlock0: nat, hc0: bv8)
      requires Live(dev)
      reads this`clock, this`issued, this`trace, this`cardPresence, regs`normalIntStatus
      reads this`cids, this`rca, this`maxBlock, this`isHighCapacity
      reads regs`clockControl, regs`powerControl, regs`blockSize, regs`blockCount, regs`hostControl
    {
      st == SdmaStatus(run)
      && (run.CmdTimeout? ==>
            Recovered(OpCondPhase(dev, run.at, n + 2), presence0, cids0, maxBlock0, hc0, trace0)
            && clock == run.at + LineWaitReads(dev, run.at) + 1 && issued == InitIssued(cfg, OpCondPhase(dev, run.at, n + 2)))
      && (!run.CmdTimeout? ==>
            clock == SdmaEnd(run) && issued == n && cardPresence == presence0
            && trace == trace0 + (if run.Ran? then SdmaCopies(read, nblks, run.wait) else [])
            && (st == Success ==> regs.normalIntStatus == XferComplete | DMAInterrupt))
    }

    /** waitIntStatus(CmdComplete) as the SDMA path uses it. */
    method WaitCommand() returns (ok: bool)
      requires Live(dev)
      modifies this`clock, regs`normalIntStatus
      ensures ok == PioRuns.WaitOk(dev, CmdComplete, old(clock)) && clock == PioRuns.WaitEnd(dev, CmdComplete, old(clock))
    {
      ok := WaitIntStatus(CmdComplete);
    }

    /** sdma_access once its command is issued: the wait for command complete,
        then the recovery when it fails, or the response check and the loop; and
        the interrupt signals disabled at the end. */
    method SdmaAfterCommand(read: bool, nblks: nat, ghost t: nat, ghost n: nat, ghost trace0: seq<Event>,
                            ghost presence0: Presence, ghost cids0: seq<CardRegisters.Cid>, ghost maxBlock0: nat,
                            ghost hc0: bv8) returns (st: IoStatus)
      requires Valid() && nblks < Two32 && SdmaPrepared(nblks, read)
      requires clock == t && issued == n && trace == trace0 && cardPresence == presence0
      requires cids == cids0 && maxBlock == maxBlock0 && regs.hostControl == hc0
      modifies regs`clockControl, regs`powerControl, regs`argument, regs`transferMode, regs`command
      modifies regs`softwareReset, regs`hostControl, regs`blockSize, regs`blockCount
      modifies this`clock, this`issued, this`trace, this`cids, this`rca, this`maxBlock, this`isHighCapacity
      modifies this`cardPresence, regs`normalIntStatus, regs`sdmaSysAddr, regs`normalIntSignalEn, regs`errorIntSignalEn
      ensures Valid()
      ensures SdmaOver(read, nblks, SdmaPhase(dev, t, dev.response(n), read), st, n, trace0, presence0, cids0, maxBlock0, hc0)
      ensures !SdmaPhase(dev, t, dev.response(n), read).CmdTimeout? ==> SdmaPrepared(nblks, read)
      ensures LeftAfter(SdmaPhase(dev, t, dev.response(n), read), n, presence0)
      ensures !SdmaPhase(dev, t, dev.response(n), read).CmdTimeout? ==> isHighCapacity == old(isHighCapacity)
      ensures regs.normalIntSignalEn == 0 && regs.errorIntSignalEn == 0
    {
      ghost var run := SdmaPhase(dev, t, dev.response(n), read);
      var ok := WaitCommand();
      if !ok {
        SdmaCmdFailed(read, nblks, run, n, trace0, presence0, cids0, maxBlock0, hc0);
        return Timeout;
      }
      st := SdmaCmdDone(read, nblks, run, old(clock), old(trace), old(cardPresence));
    }

    /** The end of sdma_access: no interrupt is signalled any more. */
    method DisableSignals()
      modifies regs`normalIntSignalEn, regs`errorIntSignalEn
      ensures regs.normalIntSignalEn == 0 && regs.errorIntSignalEn == 0
    {
      regs.normalIntSignalEn, regs.errorIntSignalEn := 0, 0;
    }

    /** The recovery after the SDMA command timed out (the command `n`, the wait
        ending at read `run.at`, and the state named by the other ghost parameters),
        and the interrupt signals disabled at the end of sdma_access. */
    method SdmaCmdFailed(ghost read: bool, ghost nblks: nat, ghost run: SdmaRun, ghost n: nat, ghost trace0: seq<Event>,
                         ghost presence0: Presence, ghost cids0: seq<CardRegisters.Cid>, ghost maxBlock0: nat, ghost hc0: bv8)
      requires Valid() && run == CmdTimeout(clock) && issued == n && trace == trace0 && cardPresence == presence0
      requires cids == cids0 && maxBlock == maxBlock0 && regs.hostControl == hc0
      modifies regs`clockControl, regs`powerControl, regs`argument, regs`transferMode, regs`command
      modifies regs`softwareReset, regs`hostControl, regs`blockSize, regs`blockCount
      modifies this`clock, this`issued, this`trace, this`cids, this`rca, this`maxBlock, this`isHighCapacity
      modifies this`cardPresence, regs`normalIntSignalEn, regs`errorIntSignalEn
      ensures Valid()
      ensures SdmaOver(read, nblks, run, Timeout, n, trace0, presence0, cids0, maxBlock0, hc0)
      ensures LeftAfter(run, n, presence0)
      ensures regs.normalIntSignalEn == 0 && regs.errorIntSignalEn == 0
    {
      assert OpCondPhase(dev, clock, issued + 2) == OpCondPhase(dev, run.at, n + 2);
      ghost var p := RecoverThenDisable();
      assert p == OpCondPhase(dev, run.at, n + 2);
    }

    /** A full reset and a new cardInit(0), a card that fails it marked for
        remounting; then the interrupt signals disabled. */
    method RecoverThenDisable() returns (ghost p: OpCond)
      requires Valid()
      modifies regs`clockControl, regs`powerControl, regs`argument, regs`transferMode, regs`command
      modifies regs`softwareReset, regs`hostControl, regs`blockSize, regs`blockCount
      modifies this`clock, this`issued, this`trace, this`cids, this`rca, this`maxBlock, this`isHighCapacity
      modifies this`cardPresence, regs`normalIntSignalEn, regs`errorIntSignalEn
      ensures Valid()
      ensures p == OpCondPhase(dev, old(clock), old(issued) + 2)
      ensures Recovered(p, old(cardPresence), old(cids), old(maxBlock), old(regs.hostControl), old(trace))
      ensures clock == old(clock) + LineWaitReads(dev, old(clock)) + 1 && issued == InitIssued(cfg, p)
      ensures regs.normalIntSignalEn == 0 && regs.errorIntSignalEn == 0
    {
      p := Recover();
      DisableSignals();
    }

    /** The recovery after a command timeout, from the card presence `presence0`,
        CID table `cids0`, maxBlock `maxBlock0`, Host Control `hc0` and trace
        `trace0`, the new cardInit(0) going through the phase `p`: what a full reset
        and cardInit(0) leave, and the card marked for remounting exactly when the
        card did not get ready. */
    ghost predicate Recovered(p: OpCond, presence0: Presence, cids0: seq<CardRegisters.Cid>, maxBlock0: nat, hc0: bv8,
                              trace0: seq<Event>)
      reads this`issued, this`cids, this`rca, this`maxBlock, this`trace, this`isHighCapacity, this`cardPresence
      reads regs`clockControl, regs`powerControl, regs`blockSize, regs`blockCount, regs`hostControl
    {
      InitOutcome(p, 0, cids0, maxBlock0, hc0, trace0 + [ResetIssued(FULL_RESET)])
      && cardPresence == (if p.ready then presence0 else Remount)
    }

    /** The recovery after a command timeout: a full reset and a fresh
        initialisation; a card that does not come back is marked for remount. */
    method Recover() returns (ghost p: OpCond)
      requires Valid()
      modifies regs`clockControl, regs`powerControl, regs`argument, regs`transferMode, regs`command
      modifies regs`softwareReset, regs`hostControl, regs`blockSize, regs`blockCount
      modifies this`clock, this`issued, this`trace, this`cids, this`rca, this`maxBlock, this`isHighCapacity
      modifies this`cardPresence
      ensures Valid()
      ensures p == OpCondPhase(dev, old(clock), old(issued) + 2)
      ensures Recovered(p, old(cardPresence), old(cids), old(maxBlock), old(regs.hostControl), old(trace))
      ensures clock == old(clock) + LineWaitReads(dev, old(clock)) + 1 && issued == InitIssued(cfg, p)
    {
      var back;
      back, p := ResetAndInit();
      if !back {
        cardPresence := Remount;
      }
    }

    /** After the SDMA command completed (the wait for it started at read `t`):
        the response check, then the loop. */
    method SdmaCmdDone(read: bool, nblks: nat, ghost run: SdmaRun, ghost t: nat, ghost trace0: seq<Event>,
                       ghost presence0: Presence) returns (st: IoStatus)
      requires Live(dev) && nblks < Two32 && SdmaPrepared(nblks, read)
      requires PioRuns.WaitOk(dev, CmdComplete, t) && clock == PioRuns.WaitEnd(dev, CmdComplete, t)
      requires run == SdmaPhase(dev, t, dev.response(issued), read) && trace == trace0 && cardPresence == presence0
      modifies this`clock, this`trace, regs`normalIntStatus, regs`sdmaSysAddr, regs`normalIntSignalEn, regs`errorIntSignalEn
      ensures SdmaOver(read, nblks, run, st, issued, trace0, presence0, cids, maxBlock, regs.hostControl)
      ensures SdmaPrepared(nblks, read)
      ensures regs.normalIntSignalEn == 0 && regs.errorIntSignalEn == 0
    {
      if Rejects(dev.response(issued), read) {
        st := Error;
      } else {
        st := SdmaLoop(read, nblks);
      }
      DisableSignals();
    }

    /** sdma_access: move `nblks` blocks from card block `block` on through the
        SDMA bounce buffer, as SdmaPhase describes, and disable the interrupt
        signals at the end. */
    method SdmaAccess(block: nat, nblks: nat, read: bool) returns (st: IoStatus)
      requires Valid() && nblks < Two32
      modifies regs`clockControl, regs`powerControl, regs`argument, regs`transferMode, regs`command
      modifies regs`softwareReset, regs`hostControl, regs`blockSize, regs`blockCount
      modifies this`clock, this`issued, this`trace, this`cids, this`rca, this`maxBlock, this`isHighCapacity
      modifies this`cardPresence, regs`normalIntStatus, regs`sdmaSysAddr, regs`timeoutControl
      modifies regs`normalIntSignalEn, regs`normalIntStatusEn, regs`errorIntSignalEn, regs`errorIntStatusEn
      modifies regs`errorIntStatus
      ensures Valid()
      ensures SdmaOver(read, nblks, SdmaPhase(dev, old(clock), dev.response(old(issued) + 1), read), st, old(issued) + 1,
                       old(trace) + SdmaSetUp(cfg, read, old(isHighCapacity), block, nblks), old(cardPresence),
                       old(cids), old(maxBlock), old(regs.hostControl))
      ensures !SdmaPhase(dev, old(clock), dev.response(old(issued) + 1), read).CmdTimeout? ==> SdmaPrepared(nblks, read)
      ensures LeftAfter(SdmaPhase(dev, old(clock), dev.response(old(issued) + 1), read), old(issued) + 1, old(cardPresence))
      ensures !SdmaPhase(dev, old(clock), dev.response(old(issued) + 1), read).CmdTimeout? ==> isHighCapacity == old(isHighCapacity)
      ensures regs.normalIntSignalEn == 0 && regs.errorIntSignalEn == 0
    {
      StartSdma(block, nblks, read);
      st := SdmaAfterCommand(read, nblks, clock, issued, trace, cardPresence, cids, maxBlock, regs.hostControl);
    }

    // ---- doAsyncReadWrite ----

    /** One PIO read of the loop of doAsyncReadWrite: readBlockMulti_pio into
        the request buffer, or readBlockSingle_pio into the 512-byte block
        buffer `buff`, which is then copied into the request buffer whatever
        the read reported. */
    method RunRead(buffer: IoBuffer, e: Event, buff: seq<bv8>) returns (st: IoStatus, next: seq<bv8>)
      requires Live(dev) && e.Transfer? && !e.write && |buff| == 512
      modifies buffer`bytes, this`clock, this`dataReads, this`issued, this`trace
      modifies regs`softwareReset, regs`normalIntStatusEn, regs`errorIntStatusEn, regs`normalIntStatus
      modifies regs`errorIntStatus, regs`timeoutControl, regs`blockSize, regs`blockCount
      modifies regs`transferMode, regs`argument, regs`command
      ensures |next| == 512
      ensures issued == old(issued) + RoutineIssued(e) && trace == old(trace) + WarResets(cfg) + BlockCmds(isHighCapacity, rca, e)
      ensures var run := RoutineRun(dev, defs.spaceAvailable, e, old(clock));
        st == run.status && clock == run.end && dataReads == old(dataReads) + 128 * run.blocks
        && (e.multi ==> next == buff && buffer.bytes == ReadInto(old(buffer.bytes), dev, old(dataReads), e.offset, run.blocks))
        && (!e.multi ==>
              next == (if run.blocks == 1 then PortBlock(dev, old(dataReads), 0) else buff)
              && buffer.bytes == Overwrite(old(buffer.bytes), U32(e.offset * 512), next))
    {
      if e.multi {
        st := ReadBlockMultiPio(buffer, e.block, e.count, e.offset);
        next := buff;
      } else {
        st, next := ReadBlockSinglePio(buff, e.block);
        buffer.WriteBytes(U32(e.offset * 512), next);
      }
    }

    /** One PIO write of the loop of doAsyncReadWrite. */
    method RunWrite(buffer: IoBuffer, e: Event, stale: seq<bv8>) returns (st: IoStatus)
      requires Live(dev) && e.Transfer? && e.write && |stale| == 512
      modifies regs`softwareReset, regs`normalIntStatusEn, regs`errorIntStatusEn, regs`normalIntStatus
      modifies regs`timeoutControl, regs`blockSize, regs`blockCount, regs`dataOut
      modifies regs`transferMode, regs`argument, regs`command, this`clock, this`issued, this`trace
      ensures issued == old(issued) + RoutineIssued(e) && trace == old(trace) + WarResets(cfg) + BlockCmds(isHighCapacity, rca, e)
      ensures var run := RoutineRun(dev, defs.spaceAvailable, e, old(clock));
        st == run.status && clock == run.end
        && regs.dataOut == old(regs.dataOut) + StagedWords(buffer.bytes, e.offset, run.blocks, stale)
    {
      if e.multi {
        st := WriteBlockMultiPio(buffer, e.block, e.count, e.offset, stale);
      } else {
        st := WriteBlockSinglePio(buffer, e.block, e.offset, stale);
      }
    }

    /** One PIO routine run of the loop of doAsyncReadWrite, in the request's
        direction. */
    method RunRoutine(buffer: IoBuffer, e: Event, buff: seq<bv8>, stale: seq<bv8>) returns (st: IoStatus, next: seq<bv8>)
      requires Live(dev) && e.Transfer? && e.write == !buffer.toMemory && |buff| == 512 && |stale| == 512
      modifies buffer`bytes, this`clock, this`dataReads, this`issued, this`trace
      modifies regs`softwareReset, regs`normalIntStatusEn, regs`errorIntStatusEn, regs`normalIntStatus
      modifies regs`errorIntStatus, regs`timeoutControl, regs`blockSize, regs`blockCount, regs`dataOut
      modifies regs`transferMode, regs`argument, regs`command
      ensures |next| == 512
      ensures issued == old(issued) + RoutineIssued(e) && trace == old(trace) + WarResets(cfg) + BlockCmds(isHighCapacity, rca, e)
      ensures var run := RoutineRun(dev, defs.spaceAvailable, e, old(clock));
        st == run.status && clock == run.end
        && (e.write ==>
              next == buff && buffer.bytes == old(buffer.bytes) && dataReads == old(dataReads)
              && regs.dataOut == old(regs.dataOut) + StagedWords(buffer.bytes, e.offset, run.blocks, stale))
        && (!e.write ==>
              regs.dataOut == old(regs.dataOut) && dataReads == old(dataReads) + 128 * run.blocks
              && (e.multi ==> next == buff && buffer.bytes == ReadInto(old(buffer.bytes), dev, old(dataReads), e.offset, run.blocks))
              && (!e.multi ==>
                    next == (if run.blocks == 1 then PortBlock(dev, old(dataReads), 0) else buff)
                    && buffer.bytes == Overwrite(old(buffer.bytes), U32(e.offset * 512), next)))
    {
      if e.write {
        st := RunWrite(buffer, e, stale);
        next := buff;
      } else {
        st, next := RunRead(buffer, e, buff);
      }
    }

    /** The PIO transfer loop has run transfers `ran` of the request's plan from
        read `t0`, `done` blocks in, with counters `blk` and `n` as
        doAsyncReadWrite keeps them in 32 bits; the request buffer, the data
        port words read and written and the block buffer `buff`, started as
        `m0`, are where the rest of the plan carries them on to what the whole
        loop leaves. */
    ghost predicate PioGoing(buffer: IoBuffer, block: nat, nblks: nat, t0: nat, ran: seq<Event>, done: nat, blk: nat, n: nat,
                             m0: Data, buff: seq<bv8>, stale: seq<bv8>)
      reads this`clock, this`dataReads, buffer`bytes, regs`dataOut
    {
      Going(dev, defs.spaceAvailable, !buffer.toMemory, cfg.useMultiblock, block, nblks, t0, ran, done, blk, n, clock)
      && |stale| == 512
      && Carries(dev, defs.spaceAvailable, !buffer.toMemory, cfg.useMultiblock, block, nblks, t0, m0, done, clock,
                 Data(buffer.bytes, dataReads, regs.dataOut, buff), stale)
    }

    /** The transfer of one pass of the PIO transfer loop, at card block `blk`,
        of MIN(2048, n) blocks or one block, at buffer offset `blk - block` in
        32 bits, run by the PIO routine for its direction and kind. */
    method PioTransfer(buffer: IoBuffer, block: nat, nblks: nat, stale: seq<bv8>, buff: seq<bv8>, blk: nat, n: nat)
      returns (st: IoStatus, next: seq<bv8>, e: Event)
      requires Live(dev) && |stale| == 512 && |buff| == 512
      modifies buffer`bytes, this`clock, this`dataReads, this`issued, this`trace
      modifies regs`softwareReset, regs`normalIntStatusEn, regs`errorIntStatusEn, regs`normalIntStatus
      modifies regs`errorIntStatus, regs`timeoutControl, regs`blockSize, regs`blockCount, regs`dataOut
      modifies regs`transferMode, regs`argument, regs`command
      ensures |next| == 512
      ensures var multi := nblks > 1 && cfg.useMultiblock;
        e == Transfer(!buffer.toMemory, multi, blk, if multi then ChunkSize(n) else 1, U32(blk - block))
      ensures issued == old(issued) + RoutineIssued(e) && trace == old(trace) + WarResets(cfg) + BlockCmds(isHighCapacity, rca, e)
      ensures st == RoutineRun(dev, defs.spaceAvailable, e, old(clock)).status
      ensures clock == RoutineRun(dev, defs.spaceAvailable, e, old(clock)).end
      ensures Data(buffer.bytes, dataReads, regs.dataOut, next)
           == RunData(dev, e, RoutineRun(dev, defs.spaceAvailable, e, old(clock)).blocks,
                      Data(old(buffer.bytes), old(dataReads), old(regs.dataOut), buff), stale)
    {
      var multi := nblks > 1 && cfg.useMultiblock;
      e := Transfer(!buffer.toMemory, multi, blk, if multi then ChunkSize(n) else 1, U32(blk - block));
      st, next := RunRoutine(buffer, e, buff, stale);
    }

    /** One pass of the PIO transfer loop: the next transfer, at card block
        `blk`, of MIN(2048, n) blocks or one block, at buffer offset `blk - block`
        in 32 bits. After a success the loop goes on; after a failure the loop
        has ended with this transfer. */
    method PioStep(buffer: IoBuffer, block: nat, nblks: nat, stale: seq<bv8>, buff: seq<bv8>, blk: nat, n: nat,
                   ghost t0: nat, ghost ran: seq<Event>, ghost done: nat, ghost trace0: seq<Event>, ghost issued0: nat,
                   ghost m0: Data)
      returns (st: IoStatus, next: seq<bv8>, blk': nat, n': nat, ghost ran': seq<Event>, ghost done': nat)
      requires PioGoing(buffer, block, nblks, t0, ran, done, blk, n, m0, buff, stale) && n > 0 && |buff| == 512
      requires trace == trace0 + LoopCmds(cfg, isHighCapacity, rca, ran) && issued == issued0 + LoopIssued(ran)
      modifies buffer`bytes, this`clock, this`dataReads, this`issued, this`trace
      modifies regs`softwareReset, regs`normalIntStatusEn, regs`errorIntStatusEn, regs`normalIntStatus
      modifies regs`errorIntStatus, regs`timeoutControl, regs`blockSize, regs`blockCount, regs`dataOut
      modifies regs`transferMode, regs`argument, regs`command
      ensures |next| == 512 && n' < n
      ensures st == Success ==> PioGoing(buffer, block, nblks, t0, ran', done', blk', n', m0, next, stale)
      ensures st != Success ==>
        RunLoop(dev, defs.spaceAvailable, Plan(!buffer.toMemory, cfg.useMultiblock, block, nblks), t0) == LoopEnd(ran', st, clock)
        && LoopData(dev, defs.spaceAvailable, Plan(!buffer.toMemory, cfg.useMultiblock, block, nblks), t0, m0, stale)
           == Data(buffer.bytes, dataReads, regs.dataOut, next)
      ensures trace == trace0 + LoopCmds(cfg, isHighCapacity, rca, ran') && issued == issued0 + LoopIssued(ran')
    {
      ghost var t := clock;
      var e;
      st, next, e := PioTransfer(buffer, block, nblks, stale, buff, blk, n);
      blk', n', ran', done' := U32(blk + e.count), n - e.count, ran + [e], done + e.count;
      LoopCmdsExtend(cfg, isHighCapacity, rca, ran, e, trace0, old(trace), trace, issued0, old(issued), issued);
      PassAdvances(dev, defs.spaceAvailable, !buffer.toMemory, cfg.useMultiblock, block, nblks, t0, ran, done, blk, n, t, e, st, clock,
                   ran', done', blk', n');
      PassCarries(dev, defs.spaceAvailable, !buffer.toMemory, cfg.useMultiblock, block, nblks, t0, m0, done, blk, n, t,
                  Data(old(buffer.bytes), old(dataReads), old(regs.dataOut), buff), e, st, clock, done',
                  Data(buffer.bytes, dataReads, regs.dataOut, next), stale);
    }

    /** The PIO transfer loop of doAsyncReadWrite (SDMA off): `blk` and the
        buffer offset `blk - block` in 32 bits, MIN(2048, n) blocks per
        multi-block transfer or one per single-block transfer, stopping at the
        first transfer that fails. The stale bytes of the block buffer are the
        ones the write routines find on their stacks too. */
    method PioLoop(buffer: IoBuffer, block: nat, nblks: nat, stale: seq<bv8>) returns (st: IoStatus, ghost ran: seq<Event>)
      requires Live(dev) && block < Two32 && nblks < Two32 && |stale| == 512
      modifies buffer`bytes, this`clock, this`dataReads, this`issued, this`trace
      modifies regs`softwareReset, regs`normalIntStatusEn, regs`errorIntStatusEn, regs`normalIntStatus
      modifies regs`errorIntStatus, regs`timeoutControl, regs`blockSize, regs`blockCount, regs`dataOut
      modifies regs`transferMode, regs`argument, regs`command
      ensures var r := RunLoop(dev, defs.spaceAvailable, Plan(!buffer.toMemory, cfg.useMultiblock, block, nblks), old(clock));
        st == r.status && ran == r.done && clock == r.end
      ensures trace == old(trace) + LoopCmds(cfg, isHighCapacity, rca, ran) && issued == old(issued) + LoopIssued(ran)
      ensures nblks == 0 ==> ran == [] && trace == old(trace) && issued == old(issued)
      ensures var r := LoopData(dev, defs.spaceAvailable, Plan(!buffer.toMemory, cfg.useMultiblock, block, nblks), old(clock),
                                Data(old(buffer.bytes), old(dataReads), old(regs.dataOut), stale), stale);
        buffer.bytes == r.bytes && dataReads == r.fromPort && regs.dataOut == r.toPort
    {
      PlanTiles(!buffer.toMemory, cfg.useMultiblock, block, nblks);
      var blk: nat := block;
      var n: nat := nblks;
      var buff := stale;
      ghost var done: nat := 0;
      ghost var m0 := Data(buffer.bytes, dataReads, regs.dataOut, stale);
      ran := [];
      while n > 0
        invariant PioGoing(buffer, block, nblks, old(clock), ran, done, blk, n, m0, buff, stale) && |buff| == 512
        invariant trace == old(trace) + LoopCmds(cfg, isHighCapacity, rca, ran) && issued == old(issued) + LoopIssued(ran)
      {
        st, buff, blk, n, ran, done := PioStep(buffer, block, nblks, stale, buff, blk, n, old(clock), ran, done, old(trace), old(issued), m0);
        if st != Success {
          return;
        }
      }
      PlanDone(dev, defs.spaceAvailable, !buffer.toMemory, cfg.useMultiblock, block, nblks, old(clock), ran, done, blk, n, clock);
      DataDone(dev, defs.spaceAvailable, !buffer.toMemory, cfg.useMultiblock, block, nblks, old(clock), m0, clock,
               Data(buffer.bytes, dataReads, regs.dataOut, buff), stale);
      st := Success;
    }

    /** Where the sdma_access attempt `run`, whose command was the `n`th, left
        the driver, started with the card presence `presence0`: the read clock
        and command count the next attempt starts at, and the card marked for
        remount exactly when its recovery failed. */
    ghost predicate LeftAfter(run: SdmaRun, n: nat, presence0: Presence)
      requires Live(dev)
      reads this`clock, this`issued, this`cardPresence
    {
      clock == ClockAfter(dev, run) && issued == IssuedAfter(dev, cfg, run, n)
      && cardPresence == if FailedRecovery(dev, run, n) then Remount else presence0
    }

    /** How one call of sdma_access moving `nblks` blocks from card block
        `block` ended, started at read `t` with `n` commands issued, the card's
        addressing `hc`, the trace `trace0` and the card state named by the
        other parameters: the attempt `run` is the one SdmaPhase describes and
        its status `st` never NoMedia; after the set-up commands at `block` it
        ended as SdmaOver says and left the clock, command count and presence
        LeftAfter names; and it appended what Attempted says it sends and left
        the addressing Attempted gives. */
    ghost predicate AttemptOver(read: bool, block: nat, nblks: nat, run: SdmaRun, st: IoStatus, t: nat, n: nat, hc: bool,
                                trace0: seq<Event>, presence0: Presence, cids0: seq<CardRegisters.Cid>, maxBlock0: nat, hc0: bv8)
      reads this`clock, this`issued, this`trace, this`cardPresence, regs`normalIntStatus
      reads this`cids, this`rca, this`maxBlock, this`isHighCapacity
      reads regs`clockControl, regs`powerControl, regs`blockSize, regs`blockCount, regs`hostControl
    {
      Live(dev) && run == SdmaPhase(dev, t, dev.response(n + 1), read) && st == SdmaStatus(run) && st != NoMedia
      && SdmaOver(read, nblks, run, st, n + 1, trace0 + SdmaSetUp(cfg, read, hc, block, nblks), presence0, cids0, maxBlock0, hc0)
      && LeftAfter(run, n + 1, presence0)
      && var a := Attempted(dev, cfg, read, block, nblks, t, n, hc);
         a.run == run && trace == trace0 + a.sent && isHighCapacity == a.highCapacity
    }

    /** One call of sdma_access moving `nblks` blocks from card block `block`, as
        its outcome: the attempt Attempted describes from the read clock, command
        count and addressing it started at, what it sends, and where it leaves
        the driver (AttemptOver). */
    method SdmaAttempt(block: nat, nblks: nat, read: bool) returns (st: IoStatus, ghost run: SdmaRun)
      requires Valid() && nblks < Two32
      modifies regs`clockControl, regs`powerControl, regs`argument, regs`transferMode, regs`command
      modifies regs`softwareReset, regs`hostControl, regs`blockSize, regs`blockCount
      modifies this`clock, this`issued, this`trace, this`cids, this`rca, this`maxBlock, this`isHighCapacity
      modifies this`cardPresence, regs`normalIntStatus, regs`sdmaSysAddr, regs`timeoutControl
      modifies regs`normalIntSignalEn, regs`normalIntStatusEn, regs`errorIntSignalEn, regs`errorIntStatusEn
      modifies regs`errorIntStatus
      ensures Valid()
      ensures AttemptOver(read, block, nblks, run, st, old(clock), old(issued), old(isHighCapacity), old(trace), old(cardPresence),
                          old(cids), old(maxBlock), old(regs.hostControl))
    {
      run := SdmaPhase(dev, clock, dev.response(issued + 1), read);
      st := SdmaAccess(block, nblks, read);
      SdmaNeverNoMedia(dev, old(clock), dev.response(old(issued) + 1), read);
      AttemptSends(read, block, nblks, run, st, old(clock), old(issued), old(isHighCapacity), old(trace), old(cardPresence),
                   old(cids), old(maxBlock), old(regs.hostControl));
    }

    /** An sdma_access call from read `t` with `n` commands issued, the
        addressing `hc`, the trace `trace0` and the card state named by the
        other parameters, that ended as SdmaOver says for its attempt `run` and
        left what LeftAfter names, ended as AttemptOver says: it appended what
        Attempted says it sends and left the addressing it gives. */
    lemma AttemptSends(read: bool, block: nat, nblks: nat, run: SdmaRun, st: IoStatus, t: nat, n: nat, hc: bool,
                       trace0: seq<Event>, presence0: Presence, cids0: seq<CardRegisters.Cid>, maxBlock0: nat, hc0: bv8)
      requires Live(dev) && run == SdmaPhase(dev, t, dev.response(n + 1), read) && st == SdmaStatus(run) && st != NoMedia
      requires SdmaOver(read, nblks, run, st, n + 1, trace0 + SdmaSetUp(cfg, read, hc, block, nblks), presence0, cids0, maxBlock0, hc0)
      requires LeftAfter(run, n + 1, presence0)
      requires !run.CmdTimeout? ==> isHighCapacity == hc
      ensures AttemptOver(read, block, nblks, run, st, t, n, hc, trace0, presence0, cids0, maxBlock0, hc0)
    {
      var setUp := SdmaSetUp(cfg, read, hc, block, nblks);
      if run.CmdTimeout? {
        var p := OpCondPhase(dev, run.at, n + 1 + 2);
        RecoverySends(p, presence0, cids0, maxBlock0, hc0, trace0 + setUp);
      }
      var tail := AfterCommand(dev, cfg, read, nblks, run, n + 1);
      assert trace == trace0 + setUp + tail;
      AppendPhases(trace0, setUp, tail);
      var a := Attempted(dev, cfg, read, block, nblks, t, n, hc);
      assert a.sent == setUp + tail;
    }

    /** A recovery whose cardInit(0) went through the phase `p`, started with the
        trace `trace0`, appended RecoveryCmds and left the addressing cardInit
        learns. */
    lemma RecoverySends(p: OpCond, presence0: Presence, cids0: seq<CardRegisters.Cid>, maxBlock0: nat, hc0: bv8,
                        trace0: seq<Event>)
      requires Recovered(p, presence0, cids0, maxBlock0, hc0, trace0)
      ensures trace == trace0 + RecoveryCmds(dev, cfg, p)
      ensures isHighCapacity == (p.ready && !p.legacy && HighCapacity(dev.response(p.last)))
    {
      var start := StartCmds() + OpCondCmds(p);
      var trace1 := trace0 + [ResetIssued(FULL_RESET)] + start;
      assert InitOutcome(p, 0, cids0, maxBlock0, hc0, trace0 + [ResetIssued(FULL_RESET)]);
      var rest := ReadyCmds(dev, cfg, p);
      if p.ready {
        assert Configured(p.last, 0, cids0, maxBlock0, hc0, trace1);
      } else {
        assert trace == trace1 + rest;
      }
      assert trace == trace1 + rest;
      AppendFour(trace0, [ResetIssued(FULL_RESET)], start, rest);
    }

    /** The SDMA retry loop, moving `nblks` blocks from card block `block` in the
        direction `read`, started at read `t` with `n` commands issued, the card
        presence `p`, the addressing `hc` and the trace `trace0`, made the
        attempts `runs` started at `starts` and left the driver, its trace and
        the card's addressing where RetriesFrom says. */
    ghost predicate RetriedFrom(read: bool, block: nat, nblks: nat, t: nat, n: nat, p: Presence, hc: bool, trace0: seq<Event>,
                                runs: seq<SdmaRun>, starts: seq<(nat, nat, bool)>)
      reads this`clock, this`issued, this`cardPresence, this`trace, this`isHighCapacity
    {
      Live(dev)
      && var r := RetriesFrom(AttemptAt(dev, cfg, read, block, nblks), t, n, p, hc, SdmaRetryCount);
         runs == r.runs && starts == r.starts && clock == r.clock && issued == r.issued && cardPresence == r.presence
         && trace == trace0 + r.sent && isHighCapacity == r.highCapacity
    }

    /** The driver is where the SDMA retry loop `r`, started with the trace
        `trace0`, leaves it, and `st` is the status the loop returns. */
    ghost predicate Ended(r: Retries, st: IoStatus, trace0: seq<Event>)
      requires r.runs != []
      reads this`clock, this`issued, this`cardPresence, this`trace, this`isHighCapacity
    {
      clock == r.clock && issued == r.issued && cardPresence == r.presence && st == Status(r)
      && trace == trace0 + r.sent && isHighCapacity == r.highCapacity
    }

    /** The driver is at a point of the SDMA retry loop `whole`, started with
        the trace `trace0`, with `left` tries left: the loop from here ends as
        `whole` does, and the trace so far followed by what it appends is what
        `whole` leaves. */
    ghost predicate Resumes(read: bool, block: nat, nblks: nat, whole: Retries, left: nat, trace0: seq<Event>)
      reads this`clock, this`issued, this`cardPresence, this`trace, this`isHighCapacity
    {
      left >= 1 && whole.runs != [] && Live(dev)
      && var here := RetriesFrom(AttemptAt(dev, cfg, read, block, nblks), clock, issued, cardPresence, isHighCapacity, left);
         SameEnd(here, whole) && trace0 + whole.sent == trace + here.sent
    }

    /** One attempt of the SDMA retry loop `whole`, started with the trace
        `trace0`, made with `left` tries left from a point where the loop from
        here ends as `whole` does and the trace so far followed by what it
        appends is what `whole` leaves: when the attempt does not time out or
        was the last try, the driver is where `whole` ends; otherwise the loop
        from where it left the driver, with one try fewer, still ends as
        `whole` does. */
    method RetryStep(block: nat, nblks: nat, read: bool, ghost whole: Retries, ghost left: nat, ghost trace0: seq<Event>)
      returns (st: IoStatus)
      requires Valid() && nblks < Two32 && left >= 1 && whole.runs != []
      requires Resumes(read, block, nblks, whole, left, trace0)
      modifies regs`clockControl, regs`powerControl, regs`argument, regs`transferMode, regs`command
      modifies regs`softwareReset, regs`hostControl, regs`blockSize, regs`blockCount
      modifies this`clock, this`issued, this`trace, this`cids, this`rca, this`maxBlock, this`isHighCapacity
      modifies this`cardPresence, regs`normalIntStatus, regs`sdmaSysAddr, regs`timeoutControl
      modifies regs`normalIntSignalEn, regs`normalIntStatusEn, regs`errorIntSignalEn, regs`errorIntStatusEn
      modifies regs`errorIntStatus
      ensures Valid() && st != NoMedia
      ensures st != Timeout || left == 1 ==> Ended(whole, st, trace0)
      ensures st == Timeout && left > 1 ==> Resumes(read, block, nblks, whole, left - 1, trace0)
    {
      ghost var step := AttemptAt(dev, cfg, read, block, nblks);
      ghost var t, n, p, hc := clock, issued, cardPresence, isHighCapacity;
      ghost var run;
      st, run := SdmaAttempt(block, nblks, read);
      ghost var a := step(t, n, hc);
      assert a == Attempted(dev, cfg, read, block, nblks, t, n, hc);
      RetriesPass(step, t, n, p, hc, left, whole, trace0, old(trace), trace);
    }

    /** The retry loop `whole` from where the driver is resumes here with all
        its tries left. */
    lemma ResumesFromStart(read: bool, block: nat, nblks: nat, whole: Retries)
      requires Live(dev)
      requires whole == RetriesFrom(AttemptAt(dev, cfg, read, block, nblks), clock, issued, cardPresence, isHighCapacity, SdmaRetryCount)
      ensures whole.runs != [] && Resumes(read, block, nblks, whole, SdmaRetryCount, trace)
    {
    }

    /** Where the retry loop `whole`, started at read `t` with `n` commands
        issued, the card presence `p`, the addressing `hc` and the trace
        `trace0`, ends, RetriedFrom holds of its attempts and `st` is the status
        of its last attempt. */
    lemma RetriedEnd(read: bool, block: nat, nblks: nat, whole: Retries, st: IoStatus, t: nat, n: nat, p: Presence, hc: bool,
                     trace0: seq<Event>)
      requires Live(dev)
      requires whole == RetriesFrom(AttemptAt(dev, cfg, read, block, nblks), t, n, p, hc, SdmaRetryCount)
      requires Ended(whole, st, trace0)
      ensures RetriedFrom(read, block, nblks, t, n, p, hc, trace0, whole.runs, whole.starts)
      ensures st == SdmaStatus(whole.runs[|whole.runs| - 1])
    {
    }

    /** The `for` loop of the SDMA branch of doAsyncReadWrite, started where the
        retry loop `whole` starts: sdma_access up to SDMA_RETRY_COUNT times,
        again only after a timeout, leaving the driver where `whole` ends. */
    method RetryLoop(block: nat, nblks: nat, read: bool, ghost whole: Retries) returns (st: IoStatus)
      requires Valid() && nblks < Two32 && whole.runs != []
      requires Resumes(read, block, nblks, whole, SdmaRetryCount, trace)
      modifies regs`clockControl, regs`powerControl, regs`argument, regs`transferMode, regs`command
      modifies regs`softwareReset, regs`hostControl, regs`blockSize, regs`blockCount
      modifies this`clock, this`issued, this`trace, this`cids, this`rca, this`maxBlock, this`isHighCapacity
      modifies this`cardPresence, regs`normalIntStatus, regs`sdmaSysAddr, regs`timeoutControl
      modifies regs`normalIntSignalEn, regs`normalIntStatusEn, regs`errorIntSignalEn, regs`errorIntStatusEn
      modifies regs`errorIntStatus
      ensures Valid() && st != NoMedia && Ended(whole, st, old(trace))
    {
      st := Timeout;
      ghost var left: nat := SdmaRetryCount;
      for i := 0 to SdmaRetryCount
        invariant Valid() && left == SdmaRetryCount - i
        invariant left > 0 ==> Resumes(read, block, nblks, whole, left, old(trace))
        invariant left == 0 ==> Ended(whole, st, old(trace)) && st != NoMedia
      {
        st := RetryStep(block, nblks, read, whole, left, old(trace));
        if st != Timeout {
          return;
        }
        left := left - 1;
      }
    }

    /** The SDMA branch of doAsyncReadWrite for `nblks` blocks from card block
        `block`: sdma_access up to SDMA_RETRY_COUNT times, again only after a
        timeout, as RetriesFrom describes; the attempts `runs` started at
        `starts`, the trace and the card's addressing are the ones it
        describes. */
    method SdmaRetry(block: nat, nblks: nat, read: bool)
      returns (st: IoStatus, ghost runs: seq<SdmaRun>, ghost starts: seq<(nat, nat, bool)>)
      requires Valid() && nblks < Two32
      modifies regs`clockControl, regs`powerControl, regs`argument, regs`transferMode, regs`command
      modifies regs`softwareReset, regs`hostControl, regs`blockSize, regs`blockCount
      modifies this`clock, this`issued, this`trace, this`cids, this`rca, this`maxBlock, this`isHighCapacity
      modifies this`cardPresence, regs`normalIntStatus, regs`sdmaSysAddr, regs`timeoutControl
      modifies regs`normalIntSignalEn, regs`normalIntStatusEn, regs`errorIntSignalEn, regs`errorIntStatusEn
      modifies regs`errorIntStatus
      ensures Valid()
      ensures RetriedFrom(read, block, nblks, old(clock), old(issued), old(cardPresence), old(isHighCapacity), old(trace), runs, starts)
      ensures st == SdmaStatus(runs[|runs| - 1]) && st != NoMedia
    {
      ghost var whole := RetriesFrom(AttemptAt(dev, cfg, read, block, nblks), clock, issued, cardPresence, isHighCapacity, SdmaRetryCount);
      runs, starts := whole.runs, whole.starts;
      ResumesFromStart(read, block, nblks, whole);
      st := RetryLoop(block, nblks, read, whole);
      RetriedEnd(read, block, nblks, whole, st, old(clock), old(issued), old(cardPresence), old(isHighCapacity), old(trace));
    }

    /** How the `while (n)` loop of doAsyncReadWrite, started at read `t` with
        `n` commands issued, ends with status `st`: with SDMA and blocks to move,
        after one to SDMA_RETRY_COUNT sdma_access attempts `runs` started at
        `starts`, all but the last timed out and fewer only when the last did
        not; with SDMA and no blocks, at once with success; without SDMA, as
        the PIO transfer loop over the request's plan, having run `ran`. */
    ghost predicate Moved(buffer: IoBuffer, block: nat, nblks: nat, st: IoStatus, ran: seq<Event>,
                          runs: seq<SdmaRun>, starts: seq<(nat, nat, bool)>, t: nat, n: nat)
    {
      Live(dev)
      && (cfg.useSdma && nblks == 0 ==> st == Success && runs == [])
      && (cfg.useSdma && nblks > 0 ==>
            1 <= |runs| <= SdmaRetryCount && |starts| == |runs| && starts[0].0 == t && starts[0].1 == n
            && AttemptsOf(dev, runs, starts, buffer.toMemory) && RetriedOnTimeout(runs)
            && st == SdmaStatus(runs[|runs| - 1]) && (|runs| < SdmaRetryCount ==> st != Timeout))
      && (!cfg.useSdma ==>
            var r := RunLoop(dev, defs.spaceAvailable, Plan(!buffer.toMemory, cfg.useMultiblock, block, nblks), t);
            st == r.status && ran == r.done)
    }

    /** What the `while (n)` loop of doAsyncReadWrite over `nblks` blocks from
        card block `block`, started with the trace `trace0`, `n` commands issued,
        the card presence `presence0` and the card's addressing `hc0` and RCA
        `rca0`, left besides its status: no command for zero blocks; with SDMA,
        the attempts chained, what each sent (the set-up for the whole request
        from `block`, then its recovery or copies) appended in order, and the
        card marked for remount exactly when a recovery failed (RetriesFrom);
        without, the commands of the PIO routines run, in order, and the
        presence untouched. */
    ghost predicate Effects(read: bool, block: nat, nblks: nat, ran: seq<Event>, runs: seq<SdmaRun>, starts: seq<(nat, nat, bool)>,
                            trace0: seq<Event>, t: nat, n: nat, presence0: Presence, hc0: bool, rca0: bv32)
      reads this`clock, this`issued, this`trace, this`cardPresence, this`isHighCapacity
    {
      Live(dev)
      && (nblks == 0 ==> issued == n && trace == trace0)
      && (cfg.useSdma && nblks == 0 ==> cardPresence == presence0)
      && (cfg.useSdma && nblks > 0 ==> RetriedFrom(read, block, nblks, t, n, presence0, hc0, trace0, runs, starts))
      && (!cfg.useSdma ==>
            trace == trace0 + LoopCmds(cfg, hc0, rca0, ran) && issued == n + LoopIssued(ran) && cardPresence == presence0)
    }

    /** The request buffer and the data port words read and written after the
        `while (n)` loop of doAsyncReadWrite, started at read `t` with the data
        path `m0` and the block buffer holding `stale`, the loop having ended
        with `st`: with SDMA, untouched by the data port; without, as the PIO
        transfer loop over the request's plan leaves them (LoopData). When that
        loop succeeded, a read put data port block `j` at block `j` of the
        buffer, as one long read would, and a write on a buffer holding the
        request sent the request's bytes, in order, after the words already
        written. */
    ghost predicate Carried(buffer: IoBuffer, block: nat, nblks: nat, st: IoStatus, t: nat, m0: Data, stale: seq<bv8>)
      reads buffer`bytes, this`dataReads, regs`dataOut
    {
      Live(dev) && |stale| == 512
      && (cfg.useSdma ==> buffer.bytes == m0.bytes && dataReads == m0.fromPort && regs.dataOut == m0.toPort)
      && (!cfg.useSdma ==>
            var r := LoopData(dev, defs.spaceAvailable, Plan(!buffer.toMemory, cfg.useMultiblock, block, nblks), t, m0, stale);
            buffer.bytes == r.bytes && dataReads == r.fromPort && regs.dataOut == r.toPort)
      && (!cfg.useSdma && st == Success && buffer.toMemory ==>
            buffer.bytes == ReadInto(m0.bytes, dev, m0.fromPort, 0, nblks)
            && dataReads == m0.fromPort + 128 * nblks && regs.dataOut == m0.toPort)
      && (!cfg.useSdma && st == Success && !buffer.toMemory && nblks * 512 <= |m0.bytes| && nblks * 512 <= Two32 ==>
            buffer.bytes == m0.bytes && dataReads == m0.fromPort && |m0.toPort| <= |regs.dataOut|
            && regs.dataOut[..|m0.toPort|] == m0.toPort && Transfer.Bytes(regs.dataOut[|m0.toPort|..]) == m0.bytes[..nblks * 512])
    }

    /** All the `while (n)` loop of doAsyncReadWrite left, started at read `t`
        with `n` commands issued, the trace `trace0`, the card presence `p0`,
        addressing `hc0` and RCA `rca0`, and the data path `m0`: how it moved
        the request (Moved), its commands (Effects), the buffer and data port
        (Carried), and the presence kept, or marked for remount only by a
        failed SDMA recovery. */
    ghost predicate Dispatched(buffer: IoBuffer, block: nat, nblks: nat, stale: seq<bv8>, st: IoStatus, ran: seq<Event>,
                               runs: seq<SdmaRun>, starts: seq<(nat, nat, bool)>, t: nat, n: nat, trace0: seq<Event>,
                               p0: Presence, hc0: bool, rca0: bv32, m0: Data)
      reads this`clock, this`issued, this`trace, this`cardPresence, this`isHighCapacity
      reads buffer`bytes, this`dataReads, regs`dataOut
    {
      Moved(buffer, block, nblks, st, ran, runs, starts, t, n)
      && Effects(buffer.toMemory, block, nblks, ran, runs, starts, trace0, t, n, p0, hc0, rca0)
      && Carried(buffer, block, nblks, st, t, m0, stale)
      && (cardPresence == p0 || (cfg.useSdma && cardPresence == Remount))
    }

    /** The `while (n)` loop of doAsyncReadWrite once the card was found present:
        with SDMA, one sdma_access retry loop over the whole request (none for
        zero blocks); without, the PIO transfer loop. */
    method Dispatch(buffer: IoBuffer, block: nat, nblks: nat, stale: seq<bv8>)
      returns (st: IoStatus, ghost ran: seq<Event>, ghost runs: seq<SdmaRun>, ghost starts: seq<(nat, nat, bool)>)
      requires Valid() && block < Two32 && nblks < Two32 && |stale| == 512
      modifies regs`clockControl, regs`powerControl, regs`argument, regs`transferMode, regs`command
      modifies regs`softwareReset, regs`hostControl, regs`blockSize, regs`blockCount
      modifies this`clock, this`issued, this`trace, this`cids, this`rca, this`maxBlock, this`isHighCapacity
      modifies this`cardPresence, regs`normalIntStatus, regs`sdmaSysAddr, regs`timeoutControl
      modifies regs`normalIntSignalEn, regs`normalIntStatusEn, regs`errorIntSignalEn, regs`errorIntStatusEn
      modifies regs`errorIntStatus, regs`dataOut, buffer`bytes, this`dataReads
      ensures Valid() && st != NoMedia
      ensures Dispatched(buffer, block, nblks, stale, st, ran, runs, starts, old(clock), old(issued), old(trace),
                         old(cardPresence), old(isHighCapacity), old(rca), Data(old(buffer.bytes), old(dataReads), old(regs.dataOut), stale))
    {
      if cfg.useSdma {
        st, ran, runs, starts := DispatchSdma(buffer, block, nblks, stale);
      } else {
        st, ran, runs, starts := DispatchPio(buffer, block, nblks, stale);
      }
    }

    /** The `while (n)` loop of doAsyncReadWrite with SDMA: one sdma_access retry
        loop over the whole request, none for zero blocks. */
    method DispatchSdma(buffer: IoBuffer, block: nat, nblks: nat, stale: seq<bv8>)
      returns (st: IoStatus, ghost ran: seq<Event>, ghost runs: seq<SdmaRun>, ghost starts: seq<(nat, nat, bool)>)
      requires Valid() && cfg.useSdma && nblks < Two32 && |stale| == 512
      modifies regs`clockControl, regs`powerControl, regs`argument, regs`transferMode, regs`command
      modifies regs`softwareReset, regs`hostControl, regs`blockSize, regs`blockCount
      modifies this`clock, this`issued, this`trace, this`cids, this`rca, this`maxBlock, this`isHighCapacity
      modifies this`cardPresence, regs`normalIntStatus, regs`sdmaSysAddr, regs`timeoutControl
      modifies regs`normalIntSignalEn, regs`normalIntStatusEn, regs`errorIntSignalEn, regs`errorIntStatusEn
      modifies regs`errorIntStatus
      ensures Valid() && st != NoMedia
      ensures Dispatched(buffer, block, nblks, stale, st, ran, runs, starts, old(clock), old(issued), old(trace),
                         old(cardPresence), old(isHighCapacity), old(rca), Data(old(buffer.bytes), old(dataReads), old(regs.dataOut), stale))
    {
      ran, runs, starts := [], [], [];
      st := Success;
      if nblks > 0 {
        st, runs, starts := SdmaRetry(block, nblks, buffer.toMemory);
      }
      SdmaDispatched(buffer, block, nblks, stale, st, runs, starts, old(clock), old(issued), old(trace), old(cardPresence),
                     old(isHighCapacity), old(rca), Data(old(buffer.bytes), old(dataReads), old(regs.dataOut), stale));
    }

    /** Where the SDMA retry loop over `nblks` blocks from card block `block`,
        started at read `t` with `n` commands issued, the card presence `p0`,
        the addressing `hc0` and the trace `trace0`, ends with the status `st`
        of its last attempt (or, for zero blocks, was not entered), the
        `while (n)` loop left what Dispatched says, the data path `m0` untouched. */
    lemma SdmaDispatched(buffer: IoBuffer, block: nat, nblks: nat, stale: seq<bv8>, st: IoStatus, runs: seq<SdmaRun>,
                         starts: seq<(nat, nat, bool)>, t: nat, n: nat, trace0: seq<Event>, p0: Presence, hc0: bool, rca0: bv32, m0: Data)
      requires Live(dev) && cfg.useSdma && |stale| == 512
      requires buffer.bytes == m0.bytes && dataReads == m0.fromPort && regs.dataOut == m0.toPort
      requires nblks == 0 ==> st == Success && runs == [] && issued == n && trace == trace0 && cardPresence == p0
      requires nblks > 0 ==> RetriedFrom(buffer.toMemory, block, nblks, t, n, p0, hc0, trace0, runs, starts)
                             && st == SdmaStatus(runs[|runs| - 1])
      ensures Dispatched(buffer, block, nblks, stale, st, [], runs, starts, t, n, trace0, p0, hc0, rca0, m0)
    {
      if nblks > 0 {
        RetriedAttempts(dev, cfg, buffer.toMemory, block, nblks, t, n, p0, hc0);
      }
    }

    /** Where the PIO transfer loop over the request's plan, started at read `t`
        with the data path `m0`, ended as RunLoop and LoopData say, having run
        `ran`, appended their commands to the trace `trace0` and the `n`
        commands issued, and left the card presence, addressing and RCA alone,
        the `while (n)` loop left what Dispatched says. */
    lemma PioDispatched(buffer: IoBuffer, block: nat, nblks: nat, stale: seq<bv8>, st: IoStatus, ran: seq<Event>,
                        t: nat, n: nat, trace0: seq<Event>, p0: Presence, hc0: bool, rca0: bv32, m0: Data)
      requires Live(dev) && !cfg.useSdma && |stale| == 512
      requires var r := RunLoop(dev, defs.spaceAvailable, Plan(!buffer.toMemory, cfg.useMultiblock, block, nblks), t);
               st == r.status && ran == r.done
      requires var d := LoopData(dev, defs.spaceAvailable, Plan(!buffer.toMemory, cfg.useMultiblock, block, nblks), t, m0, stale);
               buffer.bytes == d.bytes && dataReads == d.fromPort && regs.dataOut == d.toPort
      requires trace == trace0 + LoopCmds(cfg, isHighCapacity, rca, ran) && issued == n + LoopIssued(ran)
      requires nblks == 0 ==> trace == trace0 && issued == n
      requires cardPresence == p0 && isHighCapacity == hc0 && rca == rca0
      ensures st != NoMedia
      ensures Dispatched(buffer, block, nblks, stale, st, ran, [], [], t, n, trace0, p0, hc0, rca0, m0)
    {
      RunLoopMeaning(dev, defs.spaceAvailable, Plan(!buffer.toMemory, cfg.useMultiblock, block, nblks), t);
      if st == Success && buffer.toMemory {
        CompletedReadFills(dev, defs.spaceAvailable, cfg.useMultiblock, block, nblks, t, m0, stale);
      } else if st == Success && nblks * 512 <= |m0.bytes| && nblks * 512 <= Two32 {
        CompletedWriteSends(dev, defs.spaceAvailable, cfg.useMultiblock, block, nblks, t, m0, stale);
      }
    }

    /** The `while (n)` loop of doAsyncReadWrite without SDMA: the PIO transfer
        loop over the request's plan. */
    method DispatchPio(buffer: IoBuffer, block: nat, nblks: nat, stale: seq<bv8>)
      returns (st: IoStatus, ghost ran: seq<Event>, ghost runs: seq<SdmaRun>, ghost starts: seq<(nat, nat, bool)>)
      requires Valid() && !cfg.useSdma && block < Two32 && nblks < Two32 && |stale| == 512
      modifies regs`softwareReset, regs`normalIntStatusEn, regs`errorIntStatusEn, regs`normalIntStatus
      modifies regs`errorIntStatus, regs`timeoutControl, regs`blockSize, regs`blockCount, regs`dataOut
      modifies regs`transferMode, regs`argument, regs`command
      modifies buffer`bytes, this`clock, this`dataReads, this`issued, this`trace
      ensures Valid() && st != NoMedia
      ensures Dispatched(buffer, block, nblks, stale, st, ran, runs, starts, old(clock), old(issued), old(trace),
                         old(cardPresence), old(isHighCapacity), old(rca), Data(old(buffer.bytes), old(dataReads), old(regs.dataOut), stale))
    {
      runs, starts := [], [];
      st, ran := PioLoop(buffer, block, nblks, stale);
      PioDispatched(buffer, block, nblks, stale, st, ran, old(clock), old(issued), old(trace), old(cardPresence),
                    old(isHighCapacity), old(rca), Data(old(buffer.bytes), old(dataReads), old(regs.dataOut), stale));
    }

    /** The presence test of doAsyncReadWrite: Card Inserted is read only when the
        card is believed present. A missing card is marked for remount. */
    method CheckMedia() returns (present: bool)
      requires Valid()
      modifies this`clock, this`cardPresence
      ensures Valid()
      ensures present <==> old(cardPresence) == IsPresent && dev.presentState(old(clock)) & CardInserted != 0
      ensures clock == old(clock) + (if old(cardPresence) == IsPresent then 1 else 0)
      ensures cardPresence == if present then old(cardPresence) else Remount
    {
      present := false;
      if cardPresence == IsPresent {
        present := IsCardPresent();
      }
      if !present {
        cardPresence := Remount;
      }
    }

    /** The end of a request that moved its blocks: the lock is released, then
        the completion action, when there is one, is called with success and
        nblks * 512 bytes (in 32 bits); without one the request fails. */
    method Complete(nblks: nat, hasAction: bool) returns (st: IoStatus)
      modifies this`calls
      ensures st == (if hasAction then Success else Error)
      ensures calls == old(calls) + [Unlock] + (if hasAction then [Completed(U32(nblks * 512))] else [])
    {
      calls := calls + [Unlock];
      if hasAction {
        calls := calls + [Completed(U32(nblks * 512))];
        st := Success;
      } else {
        st := Error;
      }
    }

    /** doAsyncReadWrite past its presence test, with the lock held: a write in
        a read-only build fails; otherwise the blocks are moved (Dispatch) and
        the lock is released, then the completion is called when they were. */
    method Serve(buffer: IoBuffer, block: nat, nblks: nat, stale: seq<bv8>, hasAction: bool)
      returns (st: IoStatus, ghost moved: IoStatus, ghost ran: seq<Event>, ghost runs: seq<SdmaRun>, ghost starts: seq<(nat, nat, bool)>)
      requires Valid() && block < Two32 && nblks < Two32 && |stale| == 512
      modifies regs`clockControl, regs`powerControl, regs`argument, regs`transferMode, regs`command
      modifies regs`softwareReset, regs`hostControl, regs`blockSize, regs`blockCount
      modifies this`clock, this`issued, this`trace, this`cids, this`rca, this`maxBlock, this`isHighCapacity
      modifies this`cardPresence, regs`normalIntStatus, regs`sdmaSysAddr, regs`timeoutControl
      modifies regs`normalIntSignalEn, regs`normalIntStatusEn, regs`errorIntSignalEn, regs`errorIntStatusEn
      modifies regs`errorIntStatus, regs`dataOut, buffer`bytes, this`dataReads, this`calls
      ensures Valid() && st != NoMedia
      ensures calls == old(calls) + [Unlock] + (if st == Success then [Completed(U32(nblks * 512))] else [])
      ensures !buffer.toMemory && cfg.readOnly ==>
        st == Error && cardPresence == old(cardPresence) && issued == old(issued) && trace == old(trace)
        && buffer.bytes == old(buffer.bytes) && dataReads == old(dataReads) && regs.dataOut == old(regs.dataOut)
      ensures buffer.toMemory || !cfg.readOnly ==>
        st == (if moved == Success then (if hasAction then Success else Error) else moved)
        && Dispatched(buffer, block, nblks, stale, moved, ran, runs, starts, old(clock), old(issued), old(trace),
                      old(cardPresence), old(isHighCapacity), old(rca), Data(old(buffer.bytes), old(dataReads), old(regs.dataOut), stale))
    {
      ran, runs, starts, moved := [], [], [], Error;
      if !buffer.toMemory && cfg.readOnly {
        calls := calls + [Unlock];
        return Error, moved, ran, runs, starts;
      }
      var result;
      result, ran, runs, starts := Dispatch(buffer, block, nblks, stale);
      moved := result;
      if result != Success {
        calls := calls + [Unlock];
        return result, moved, ran, runs, starts;
      }
      st := Complete(nblks, hasAction);
    }

    /** doAsyncReadWrite, in the variant built for 32-bit kernels: under the
        transfer lock, a request to a card that is not believed present or no
        longer inserted fails with NoMedia and marks the card for remount;
        otherwise the request is served (Serve). The lock is taken once and
        released exactly once, before the completion action, which is called
        only when the request succeeded. `stale` is the content of the block
        buffer on the stack; `hasAction` whether the completion has an action. */
    method DoAsyncReadWrite(buffer: IoBuffer, block: nat, nblks: nat, stale: seq<bv8>, hasAction: bool)
      returns (st: IoStatus, ghost moved: IoStatus, ghost ran: seq<Event>, ghost runs: seq<SdmaRun>, ghost starts: seq<(nat, nat, bool)>)
      requires Valid() && block < Two32 && nblks < Two32 && |stale| == 512
      modifies regs`clockControl, regs`powerControl, regs`argument, regs`transferMode, regs`command
      modifies regs`softwareReset, regs`hostControl, regs`blockSize, regs`blockCount
      modifies this`clock, this`issued, this`trace, this`cids, this`rca, this`maxBlock, this`isHighCapacity
      modifies this`cardPresence, regs`normalIntStatus, regs`sdmaSysAddr, regs`timeoutControl
      modifies regs`normalIntSignalEn, regs`normalIntStatusEn, regs`errorIntSignalEn, regs`errorIntStatusEn
      modifies regs`errorIntStatus, regs`dataOut, buffer`bytes, this`dataReads, this`calls
      ensures Valid()
      ensures calls == old(calls) + [Lock] + [Unlock] + (if st == Success then [Completed(U32(nblks * 512))] else [])
      ensures st == NoMedia <==> old(cardPresence) != IsPresent || dev.presentState(old(clock)) & CardInserted == 0
      ensures st == NoMedia ==> cardPresence == Remount && issued == old(issued) && trace == old(trace)
      ensures st == NoMedia || (!buffer.toMemory && cfg.readOnly) ==>
        buffer.bytes == old(buffer.bytes) && dataReads == old(dataReads) && regs.dataOut == old(regs.dataOut)
      ensures st != NoMedia && !buffer.toMemory && cfg.readOnly ==>
        st == Error && cardPresence == old(cardPresence) && issued == old(issued) && trace == old(trace)
      ensures st != NoMedia && (buffer.toMemory || !cfg.readOnly) ==>
        st == (if moved == Success then (if hasAction then Success else Error) else moved)
        && Dispatched(buffer, block, nblks, stale, moved, ran, runs, starts, old(clock) + 1, old(issued), old(trace),
                      old(cardPresence), old(isHighCapacity), old(rca), Data(old(buffer.bytes), old(dataReads), old(regs.dataOut), stale))
    {
      calls := calls + [Lock];
      var present := CheckMedia();
      if !present {
        calls := calls + [Unlock];
        return NoMedia, Error, [], [], [];
      }
      assert clock == old(clock) + 1 && cardPresence == old(cardPresence);
      assert buffer.bytes == old(buffer.bytes) && dataReads == old(dataReads) && regs.dataOut == old(regs.dataOut);
      assert trace == old(trace) && issued == old(issued) && isHighCapacity == old(isHighCapacity) && rca == old(rca);
      st, moved, ran, runs, starts := Serve(buffer, block, nblks, stale, hasAction);
    }

    // ---- reportMediaState ----

    /** The branch of reportMediaState for a newly inserted card: a full reset
        and cardInit(0), whose outcome is not looked at, then the card is
        present. */
    method MountNew() returns (ghost p: OpCond)
      requires Valid()
      modifies regs`clockControl, regs`powerControl, regs`argument, regs`transferMode, regs`command
      modifies regs`softwareReset, regs`hostControl, regs`blockSize, regs`blockCount
      modifies this`clock, this`issued, this`trace, this`cids, this`rca, this`maxBlock, this`isHighCapacity
      modifies this`cardPresence
      ensures Valid() && cardPresence == IsPresent
      ensures p == OpCondPhase(dev, old(clock), old(issued) + 2)
      ensures InitOutcome(p, 0, old(cids), old(maxBlock), old(regs.hostControl), old(trace) + [ResetIssued(FULL_RESET)])
    {
      var back;
      back, p := ResetAndInit();
      cardPresence := IsPresent;
    }

    /** reportMediaState: read Card Inserted once and move cardPresence as
        MediaNext says, reporting whether the medium changed (MediaChanged) and
        whether a card is now present. Only a newly inserted card is
        initialised (MediaInit); every other report reads PresentState and
        touches nothing else. */
    method ReportMediaState() returns (mediaPresent: bool, changedState: bool, ghost p: OpCond)
      requires Valid()
      modifies regs`clockControl, regs`powerControl, regs`argument, regs`transferMode, regs`command
      modifies regs`softwareReset, regs`hostControl, regs`blockSize, regs`blockCount
      modifies this`clock, this`issued, this`trace, this`cids, this`rca, this`maxBlock, this`isHighCapacity
      modifies this`cardPresence
      ensures Valid()
      ensures var inserted := dev.presentState(old(clock)) & CardInserted != 0;
        cardPresence == MediaNext(old(cardPresence), inserted)
        && changedState == MediaChanged(old(cardPresence), inserted)
        && mediaPresent == (cardPresence == IsPresent)
        && (MediaInit(old(cardPresence), inserted) ==>
              p == OpCondPhase(dev, old(clock) + 1, old(issued) + 2)
              && InitOutcome(p, 0, old(cids), old(maxBlock), old(regs.hostControl), old(trace) + [ResetIssued(FULL_RESET)]))
        && (!MediaInit(old(cardPresence), inserted) ==>
              clock == old(clock) + 1 && issued == old(issued) && trace == old(trace) && cids == old(cids)
              && maxBlock == old(maxBlock))
    {
      p := OpCond(false, 0, false, 0);  // no cardInit on this path unless MountNew runs
      var presence := IsCardPresent();
      if cardPresence == Remount {
        changedState := true;
        cardPresence := NotPresent;
      } else if (cardPresence == IsPresent) == presence {
        changedState := false;
      } else {
        changedState := true;
        if presence {
          assert OpCondPhase(dev, clock, issued + 2) == OpCondPhase(dev, old(clock) + 1, old(issued) + 2);
          p := MountNew();
        } else {
          cardPresence := NotPresent;
        }
      }
      mediaPresent := cardPresence == IsPresent;
    }

    // ---- setup() ----

    /** mapDeviceMemoryWithIndex(0): the n-th mapping attempt succeeds as the
        hardware says. */
    method MapRegisters() returns (ok: bool)
      modifies this`maps
      ensures ok == dev.mapOk(old(maps)) && maps == old(maps) + 1
    {
      ok := dev.mapOk(maps);
      maps := maps + 1;
    }

    /** The per-slot reset of setup(): power off, then a full reset. */
    method PowerOffReset()
      modifies regs`powerControl, regs`softwareReset, this`trace
      ensures regs.powerControl == 0 && regs.softwareReset == 0
      ensures trace == old(trace) + [ResetIssued(FULL_RESET)]
    {
      regs.powerControl := 0;
      Reset(FULL_RESET);
    }

    /** The card presence the card check of setup() leaves for a slot, from the
        presence `presence0`, the read clock `t` and the slot's CID entry `cid0`,
        where `p` is the operating-condition phase cardInit would go through: a
        card believed present and still inserted is initialised again, and is
        marked for remount when it gets ready and the CID in its ALL_SEND_CID
        response differs from the entry. */
    ghost function CheckedPresence(presence0: Presence, t: nat, p: OpCond, cid0: CardRegisters.Cid): Presence
      requires Live(dev)
    {
      if presence0 == IsPresent && dev.presentState(t) & CardInserted != 0
         && p.ready && CardRegisters.ParseCid(dev.response(p.last + 1)) != cid0
      then Remount
      else presence0
    }

    /** The card presence the card check of setup() leaves, from the presence
        `presence0`, the read clock `t`, `n` commands issued and the CID table
        `cids0`: CheckedPresence, so it either stays or goes from IsPresent to
        Remount. */
    ghost predicate PresenceChecked(slot: nat, presence0: Presence, t: nat, n: nat, cids0: seq<CardRegisters.Cid>)
      requires Live(dev) && slot < |cids0|
      reads this`cardPresence
    {
      && cardPresence == CheckedPresence(presence0, t, OpCondPhase(dev, t + 1, n + 2), cids0[slot])
      && (cardPresence == presence0 || (presence0 == IsPresent && cardPresence == Remount))
    }

    /** The rest of what the card check of setup() leaves, from `n` commands
        issued and the CID table, maxBlock, Host Control, trace, Power Control and
        Software Reset `cids0` .. `sr0`: when cardInit(slot) ran, it went through
        the phase `p`, one read after read `t`, with the outcome InitOutcome
        states; when it did not, no command was issued and the trace, the CID
        table, Power Control and Software Reset are as they were. */
    ghost predicate Reinitialised(ran: bool, p: OpCond, slot: nat, t: nat, n: nat,
                                  cids0: seq<CardRegisters.Cid>, maxBlock0: nat, hc0: bv8, trace0: seq<Event>, pc0: bv8, sr0: bv8)
      requires Live(dev)
      reads this`issued, this`cids, this`rca, this`maxBlock, this`trace, this`isHighCapacity
      reads regs`clockControl, regs`powerControl, regs`blockSize, regs`blockCount, regs`hostControl, regs`softwareReset
    {
      && (ran ==> p == OpCondPhase(dev, t + 1, n + 2) && InitOutcome(p, slot, cids0, maxBlock0, hc0, trace0))
      && (!ran ==> issued == n && trace == trace0 && cids == cids0 && regs.powerControl == pc0 && regs.softwareReset == sr0)
    }

    /** The card check of setup(): when a card is believed present (checked
        first, so PresentState is read only then) and still inserted,
        cardInit(slot), going through the phase `p`; a CID entry that changed
        marks the card for remount. */
    method Reidentify(slot: nat) returns (ghost ran: bool, ghost p: OpCond)
      requires Valid() && slot < 6
      modifies regs`clockControl, regs`powerControl, regs`argument, regs`transferMode, regs`command
      modifies regs`softwareReset, regs`hostControl, regs`blockSize, regs`blockCount
      modifies this`clock, this`issued, this`trace, this`cids, this`rca, this`maxBlock, this`isHighCapacity
      modifies this`cardPresence
      ensures Valid()
      ensures ran == (old(cardPresence) == IsPresent && dev.presentState(old(clock)) & CardInserted != 0)
      ensures PresenceChecked(slot, old(cardPresence), old(clock), old(issued), old(cids))
      ensures Reinitialised(ran, p, slot, old(clock), old(issued), old(cids), old(maxBlock),
                            old(regs.hostControl), old(trace), old(regs.powerControl), old(regs.softwareReset))
    {
      ran, p := false, OpCond(false, 0, false, 0);
      if cardPresence != IsPresent {
        return;
      }
      var present := IsCardPresent();
      if !present {
        return;
      }
      ran := true;
      p := InitAndCompare(slot, old(cardPresence), old(clock), old(issued), old(cids), old(maxBlock),
                          old(regs.hostControl), old(trace), old(regs.powerControl), old(regs.softwareReset));
    }

    /** cardInit(slot), going through the phase `p`, with the CID comparison
        around it, for a card believed present (`presence0`) and found inserted at
        read `t`, with `n` commands issued; the other ghost parameters name the
        state it starts from. */
    method InitAndCompare(slot: nat, ghost presence0: Presence, ghost t: nat, ghost n: nat,
                          ghost cids0: seq<CardRegisters.Cid>, ghost maxBlock0: nat,
                          ghost hc0: bv8, ghost trace0: seq<Event>, ghost pc0: bv8, ghost sr0: bv8) returns (ghost p: OpCond)
      requires Valid() && slot < 6 && clock == t + 1 && issued == n
      requires presence0 == IsPresent && dev.presentState(t) & CardInserted != 0 && cardPresence == presence0
      requires cids == cids0 && maxBlock == maxBlock0 && regs.hostControl == hc0 && trace == trace0
      modifies regs`clockControl, regs`powerControl, regs`argument, regs`transferMode, regs`command
      modifies regs`softwareReset, regs`hostControl, regs`blockSize, regs`blockCount
      modifies this`clock, this`issued, this`trace, this`cids, this`rca, this`maxBlock, this`isHighCapacity
      modifies this`cardPresence
      ensures Valid()
      ensures PresenceChecked(slot, presence0, t, n, cids0)
      ensures Reinitialised(true, p, slot, t, n, cids0, maxBlock0, hc0, trace0, pc0, sr0)
    {
      var oldCid := cids[slot];
      var ok;
      assert OpCondPhase(dev, clock, issued + 2) == OpCondPhase(dev, t + 1, n + 2);
      ok, p := CardInit(slot, cids0, maxBlock0, hc0, trace0);
      PresenceFromCids(presence0, t, p, slot, cids0, cids);
      MarkIfChanged(cids[slot], oldCid);
    }

    /** The CID comparison after cardInit: a slot whose entry changed from
        `before` to `after` marks the card for remount. */
    method MarkIfChanged(after: CardRegisters.Cid, before: CardRegisters.Cid)
      modifies this`cardPresence
      ensures cardPresence == if after != before then Remount else old(cardPresence)
    {
      if after != before {
        cardPresence := Remount;
      }
    }

    /** For a card believed present and still inserted, CheckedPresence is Remount
        exactly when the slot's entry of the CID table cardInit left, `cids1`,
        differs from its entry before, in `cids0`. */
    lemma PresenceFromCids(presence0: Presence, t: nat, p: OpCond, slot: nat, cids0: seq<CardRegisters.Cid>, cids1: seq<CardRegisters.Cid>)
      requires Live(dev) && slot < |cids0|
      requires presence0 == IsPresent && dev.presentState(t) & CardInserted != 0
      requires cids1 == if p.ready then cids0[slot := CardRegisters.ParseCid(dev.response(p.last + 1))] else cids0
      ensures CheckedPresence(presence0, t, p, cids0[slot]) == if cids1[slot] != cids0[slot] then Remount else presence0
    {
    }

    /** setup(): for each of the `count` register ranges of the provider, map the
        registers (a failed mapping ends setup with false), power the slot off,
        reset it and re-check a card believed present. setup() never marks a card
        present; it only sends a present card whose CID changed to Remount. With no
        card believed present it only resets. With a single slot the new media state
        is exactly what CheckedPresence says. */
    method Setup(count: nat) returns (ok: bool)
      requires Valid() && count <= 6
      modifies regs`clockControl, regs`powerControl, regs`argument, regs`transferMode, regs`command
      modifies regs`softwareReset, regs`hostControl, regs`blockSize, regs`blockCount
      modifies this`clock, this`issued, this`trace, this`cids, this`rca, this`maxBlock, this`isHighCapacity
      modifies this`cardPresence, this`maps
      ensures Valid()
      ensures ok <==> forall i :: old(maps) <= i < old(maps) + count ==> dev.mapOk(i)
      ensures ok ==> maps == old(maps) + count
      ensures !ok ==> old(maps) < maps <= old(maps) + count && !dev.mapOk(maps - 1)
      ensures cardPresence == old(cardPresence) || (old(cardPresence) == IsPresent && cardPresence == Remount)
      ensures old(cardPresence) != IsPresent ==>
        issued == old(issued) && cids == old(cids) && trace == old(trace) + FullResets(maps - old(maps) - (if ok then 0 else 1))
      ensures ok && count > 0 && old(cardPresence) != IsPresent ==> regs.powerControl == 0 && regs.softwareReset == 0
      ensures ok && count == 1 ==> PresenceChecked(0, old(cardPresence), old(clock), old(issued), old(cids))
    {
      var slot: nat := 0;
      while slot < count
        invariant slot <= count && maps == old(maps) + slot && Valid()
        invariant slot == 0 ==>
          clock == old(clock) && issued == old(issued) && cids == old(cids) && cardPresence == old(cardPresence)
        invariant slot == 1 ==>
          PresenceChecked(0, old(cardPresence), old(clock), old(issued), old(cids))
        invariant forall i :: old(maps) <= i < maps ==> dev.mapOk(i)
        invariant cardPresence == old(cardPresence) || (old(cardPresence) == IsPresent && cardPresence == Remount)
        invariant old(cardPresence) != IsPresent ==>
          issued == old(issued) && cids == old(cids) && trace == old(trace) + FullResets(slot)
        invariant slot > 0 && old(cardPresence) != IsPresent ==> regs.powerControl == 0 && regs.softwareReset == 0
      {
        var mapped := SetupSlot(slot);
        if !mapped {
          return false;
        }
        slot := slot + 1;
      }
      ok := true;
    }

    /** One round of the loop of setup(): map the registers of slot `slot`; when
        that succeeds, power the slot off, reset it and re-check a card believed
        present; when it fails, nothing else happens. */
    method SetupSlot(slot: nat) returns (mapped: bool)
      requires Valid() && slot < 6
      modifies regs`clockControl, regs`powerControl, regs`argument, regs`transferMode, regs`command
      modifies regs`softwareReset, regs`hostControl, regs`blockSize, regs`blockCount
      modifies this`clock, this`issued, this`trace, this`cids, this`rca, this`maxBlock, this`isHighCapacity
      modifies this`cardPresence, this`maps
      ensures Valid()
      ensures mapped == dev.mapOk(old(maps)) && maps == old(maps) + 1
      ensures !mapped ==>
        clock == old(clock) && issued == old(issued) && cids == old(cids) && trace == old(trace)
        && cardPresence == old(cardPresence)
      ensures mapped ==> PresenceChecked(slot, old(cardPresence), old(clock), old(issued), old(cids))
      ensures cardPresence == old(cardPresence) || (old(cardPresence) == IsPresent && cardPresence == Remount)
      ensures mapped && old(cardPresence) != IsPresent ==>
        issued == old(issued) && cids == old(cids) && trace == old(trace) + [ResetIssued(FULL_RESET)]
        && regs.powerControl == 0 && regs.softwareReset == 0
    {
      mapped := MapRegisters();
      if mapped {
        PowerOffReset();
        ghost var ran, p := Reidentify(slot);
      }
    }
  }
}
