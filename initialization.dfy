/**
 * What cardInit asks of the card and what it learns from the answers: the
 * wait for the CMD line after SEND_IF_COND, which decides between the legacy
 * and the version 2.00 initialisation, the APP_OP_COND rounds of each, and
 * the commands that identify, select and configure the card.
 */
module Initialization {
  import opened RegisterMap
  import opened SdCommands
  import opened Hardware
  import CardRegisters

  /** A PresentState value with Command Inhibit (CMD) clear: the CMD line is free. */
  predicate LineFree(ps: bv32)
  {
    ps & ComInhibitCMD == 0
  }

  /** The number of the `n` PresentState reads from `t` on that show the CMD line
      busy before the first one that shows it free. */
  function BusyReads(d: Device, t: nat, n: nat): (k: nat)
    ensures k <= n
    ensures forall j :: t <= j < t + k ==> !LineFree(d.presentState(j))
    ensures k < n ==> LineFree(d.presentState(t + k))
    // `t` in the measure keeps the verifier from unrolling a literal bound.
    decreases n, t
  {
    if n == 0 || LineFree(d.presentState(t)) then 0 else 1 + BusyReads(d, t + 1, n - 1)
  }

  /** The reads of the 100-try wait for the CMD line after SEND_IF_COND: it stops
      at the first read that shows the line free. */
  function LineWaitReads(d: Device, t: nat): (r: nat)
    ensures 1 <= r <= 100
    ensures forall j :: t <= j < t + r - 1 ==> !LineFree(d.presentState(j))
    ensures r < 100 ==> LineFree(d.presentState(t + r - 1))
  {
    var k := BusyReads(d, t, 100);
    if k < 100 then k + 1 else 100
  }

  /** The wait ends after read `i` when that read is the first to show the line free. */
  lemma LineWaitStops(d: Device, t: nat, i: nat)
    requires i < 100 && LineFree(d.presentState(t + i))
    requires forall j :: t <= j < t + i ==> !LineFree(d.presentState(j))
    ensures LineWaitReads(d, t) == i + 1
  {
  }

  /** The wait takes all 100 reads when none of them shows the line free. */
  lemma LineWaitExhausted(d: Device, t: nat)
    requires forall j :: t <= j < t + 100 ==> !LineFree(d.presentState(j))
    ensures LineWaitReads(d, t) == 100
  {
  }

  /** The card did not answer SEND_IF_COND: the read after the wait still shows the
      CMD line busy. Such a card is initialised the version 1.x way. */
  predicate LegacyCard(d: Device, t: nat)
  {
    !LineFree(d.presentState(t + LineWaitReads(d, t)))
  }

  /** LegacyCard is decided by the read that follows the wait. */
  lemma LegacyCardAt(d: Device, t: nat, c: nat)
    requires c == t + LineWaitReads(d, t)
    ensures LegacyCard(d, t) <==> !LineFree(d.presentState(c))
  {
  }

  /** The number of the command that is the `j`-th APP_OP_COND after command `n`. */
  function OpCondAt(n: nat, j: nat): nat
  {
    n + 2 * j
  }

  /** The legacy loop: APP_CMD and APP_OP_COND, repeated until the response shows
      power-up complete. Commands are numbered from `n`, the last one before the
      loop. */
  function LegacyRounds(d: Device, n: nat): (k: nat)
    requires Live(d)
    ensures k >= 1 && PoweredUp(d.response(OpCondAt(n, k)))
    ensures forall j :: 1 <= j < k ==> !PoweredUp(d.response(OpCondAt(n, j)))
    decreases if n < d.horizon then d.horizon - n else 0
  {
    if PoweredUp(d.response(OpCondAt(n, 1))) then 1
    else
      var k := LegacyRounds(d, n + 2);
      assert forall j :: 2 <= j < k + 1 ==> OpCondAt(n, j) == OpCondAt(n + 2, j - 1);
      k + 1
  }

  /** The version 2.00 loop: at most `left` rounds, stopping at the first response
      that shows power-up complete. */
  function HcsRounds(d: Device, n: nat, left: nat): (k: nat)
    requires left >= 1
    ensures 1 <= k <= left
    ensures forall j :: 1 <= j < k ==> !PoweredUp(d.response(OpCondAt(n, j)))
    ensures k < left ==> PoweredUp(d.response(OpCondAt(n, k)))
    decreases left, n
  {
    if PoweredUp(d.response(OpCondAt(n, 1))) || left == 1 then 1
    else
      var k := HcsRounds(d, n + 2, left - 1);
      assert forall j :: 2 <= j < k + 1 ==> OpCondAt(n, j) == OpCondAt(n + 2, j - 1);
      k + 1
  }

  /** The version 2.00 loop stops at round `i` when that is the first round whose
      response shows power-up complete, or when it is the last round allowed. */
  lemma HcsRoundsStop(d: Device, n: nat, left: nat, i: nat)
    requires 1 <= i <= left
    requires forall j :: 1 <= j < i ==> !PoweredUp(d.response(OpCondAt(n, j)))
    requires PoweredUp(d.response(OpCondAt(n, i))) || i == left
    ensures HcsRounds(d, n, left) == i
  {
  }

  /** The legacy loop stops at round `i` when that is the first round whose
      response shows power-up complete. */
  lemma LegacyRoundsStop(d: Device, n: nat, i: nat)
    requires Live(d) && 1 <= i
    requires forall j :: 1 <= j < i ==> !PoweredUp(d.response(OpCondAt(n, j)))
    requires PoweredUp(d.response(OpCondAt(n, i)))
    ensures LegacyRounds(d, n) == i
  {
  }

  /** The version 2.00 loop tries 80 times (two seconds of 25 ms delays). */
  const HcsTries: nat := 80

  /** The outcome of the operating-condition phase: which path was taken, how many
      rounds were sent, whether the card finished powering up, and the number of
      the last command sent. */
  datatype OpCond = OpCond(legacy: bool, rounds: nat, ready: bool, last: nat)

  /** The phase for a card whose SEND_IF_COND was command `n`, with the CMD-line
      wait starting at read `t`. The legacy path sends GO_IDLE_STATE once more
      first and always ends with the card powered up; the version 2.00 path gives
      up after 80 rounds. */
  function OpCondPhase(d: Device, t: nat, n: nat): OpCond
    requires Live(d)
  {
    if LegacyCard(d, t) then
      var k := LegacyRounds(d, n + 1);
      OpCond(true, k, true, OpCondAt(n + 1, k))
    else
      var k := HcsRounds(d, n, HcsTries);
      OpCond(false, k, PoweredUp(d.response(OpCondAt(n, k))), OpCondAt(n, k))
  }

  /** The phase sends at least one round and ends with the last APP_OP_COND; the
      legacy path is taken exactly when the card left the CMD line busy, and always
      ends with the card powered up; the version 2.00 path sends at most 80 rounds,
      and all 80 when the card never powers up; `ready` is the power-up bit of the
      last response. */
  lemma OpCondPhaseMeaning(d: Device, t: nat, n: nat)
    requires Live(d)
    ensures var p := OpCondPhase(d, t, n);
      p.rounds >= 1
      && p.last == OpCondAt(if p.legacy then n + 1 else n, p.rounds)
      && (p.legacy <==> LegacyCard(d, t))
      && (p.ready <==> PoweredUp(d.response(p.last)))
      && (p.legacy ==> p.ready)
      && (!p.legacy ==> p.rounds <= HcsTries && (!p.ready ==> p.rounds == HcsTries))
  {
  }

  /** The phase of a card that did not answer SEND_IF_COND. */
  lemma OpCondPhaseLegacy(d: Device, t: nat, n: nat)
    requires Live(d) && LegacyCard(d, t)
    ensures var k := LegacyRounds(d, n + 1);
      OpCondPhase(d, t, n) == OpCond(true, k, true, OpCondAt(n + 1, k))
  {
  }

  /** The phase of a card that answered SEND_IF_COND. */
  lemma OpCondPhaseHcs(d: Device, t: nat, n: nat)
    requires Live(d) && !LegacyCard(d, t)
    ensures var k := HcsRounds(d, n, HcsTries);
      OpCondPhase(d, t, n) == OpCond(false, k, PoweredUp(d.response(OpCondAt(n, k))), OpCondAt(n, k))
  {
  }

  // ---- Command sequences ----

  /** GO_IDLE_STATE (sent without waiting for the CMD line) and SEND_IF_COND with
      the 2.7-3.6 V range and check pattern 0xAA. */
  function StartCmds(): seq<Event>
  {
    [Cmd(GO_IDLE_STATE, SDCR0, 0, false), Cmd(SEND_IF_COND, SDCR8, IfCondArg, true)]
  }

  /** The restart of a card that did not answer SEND_IF_COND. */
  function LegacyRestart(): seq<Event>
  {
    [ResetIssued(CMD_RESET), ResetIssued(DAT_RESET), Cmd(GO_IDLE_STATE, SDCR0, 0, false)]
  }

  /** `k` rounds of APP_CMD (to RCA 0) and APP_OP_COND with argument `arg`. */
  function OpCondRounds(arg: bv32, k: nat): (r: seq<Event>)
    ensures |r| == 2 * k
    ensures forall j :: 0 <= j < k ==>
      r[2 * j] == Cmd(APP_CMD, SDCR55, 0, true) && r[2 * j + 1] == Cmd(APP_OP_COND, SDACR41, arg, true)
  {
    if k == 0 then []
    else OpCondRounds(arg, k - 1) + [Cmd(APP_CMD, SDCR55, 0, true), Cmd(APP_OP_COND, SDACR41, arg, true)]
  }

  /** The argument that addresses the card with relative address `rca`. */
  function RcaArg(rca: bv32): bv32
  {
    rca << 16
  }

  /** The relative card address in an R6 response (its upper 16 bits). */
  function RcaOf(r: CardRegisters.Response): (rca: bv32)
    ensures rca < 0x1_0000
  {
    r.r0 >> 16
  }

  /** An R6 address shifted back into place is the response's upper half. */
  lemma RcaArgRoundTrip(r: CardRegisters.Response)
    ensures RcaArg(RcaOf(r)) == r.r0 & 0xFFFF_0000
    ensures RcaOf(r) == (r.r0 & 0xFFFF_0000) >> 16
  {
  }

  /** OCR bit 30, Card Capacity Status: a high-capacity card. */
  predicate HighCapacity(r: CardRegisters.Response)
  {
    r.r0 & OCR_CCS != 0
  }

  /** The card accepted SET_BUS_WIDTH: neither ERROR nor ILLEGAL_COMMAND is set in its
      R1 status. */
  predicate BusWidthAccepted(r: CardRegisters.Response)
  {
    r.r0 & BusWidthErrorMask == 0
  }

  /** ALL_SEND_CID, SET_RELATIVE_ADDR, SEND_CSD and SELECT_CARD for a card at `rca`. */
  function IdentifyCmds(rca: bv32): seq<Event>
  {
    [Cmd(ALL_SEND_CID, SDCR2, 0, true), Cmd(SET_RELATIVE_ADDR, SDCR3, 0, true),
     Cmd(SEND_CSD, SDCR9, RcaArg(rca), true), Cmd(SELECT_CARD, SDCR7, RcaArg(rca), true)]
  }

  /** The switch to the 4-bit bus, and the resets when the card refuses it. The
      driver sends SET_BUS_WIDTH with the SDCR6 code of the plain command table. */
  function BusWidthCmds(rca: bv32, accepted: bool): seq<Event>
  {
    [Cmd(APP_CMD, SDCR55, RcaArg(rca), true), Cmd(APP_SET_BUS_WIDTH, SDCR6, SD_BUS_WIDTH_4, true)]
    + (if accepted then [] else [ResetIssued(CMD_RESET), ResetIssued(DAT_RESET)])
  }

  /** The switch to high-speed timing. */
  function HighSpeedCmds(): seq<Event>
  {
    [Cmd(SWITCH, SDCR6, SwitchHighSpeedArg, true)]
  }

  /** The resets and commands of the operating-condition phase `p`. */
  function OpCondCmds(p: OpCond): seq<Event>
  {
    if p.legacy then LegacyRestart() + OpCondRounds(OcrWindowArg, p.rounds)
    else OpCondRounds(OcrHcsArg, p.rounds)
  }

  /** The optional switches at the end of cardInit. */
  function ConfigCmds(rca: bv32, wide: bool, accepted: bool, highSpeed: bool): seq<Event>
  {
    (if wide then BusWidthCmds(rca, accepted) else []) + (if highSpeed then HighSpeedCmds() else [])
  }

  /** Everything cardInit asks of a card that powers up. */
  function InitCmds(p: OpCond, rca: bv32, wide: bool, accepted: bool, highSpeed: bool): seq<Event>
  {
    (StartCmds() + OpCondCmds(p)) + (IdentifyCmds(rca) + ConfigCmds(rca, wide, accepted, highSpeed))
  }

  /** Appending two phases one after the other appends their concatenation. */
  lemma AppendPhases<T>(s: seq<T>, a: seq<T>, b: seq<T>)
    ensures s + a + b == s + (a + b)
  {
  }

  /** Host Control with the bits of `bits` set. */
  function SetBits8(hc: bv8, bits: bv8): (r: bv8)
    ensures r & bits == bits
    ensures hc & r == hc
  {
    hc | bits
  }
}
