/**
 * The arithmetic of data transfers: 32-bit block and byte addresses, the SDMA
 * bounce buffer, how doAsyncReadWrite cuts a request into PIO transfers, what
 * the SDMA loop copies between the bounce buffer and the request buffer, how
 * the data port words map to bytes, and the bounded status polls of the PIO
 * routines.
 */
module Transfer {
  import opened RegisterMap
  import opened Platform
  import opened Hardware

  const Two32: nat := 0x1_0000_0000

  /** A value reduced to 32 bits, as UInt32 arithmetic does. */
  function U32(x: int): (r: nat)
    ensures r < Two32
    ensures 0 <= x < Two32 ==> r == x
  {
    x % Two32
  }

  // ---- 32-bit counters ----

  /** Adding to a value already reduced to 32 bits reduces like adding first. */
  lemma U32Add(a: int, b: int)
    ensures U32(U32(a) + b) == U32(a + b)
  {
    var q := a / Two32;
    assert a == q * Two32 + U32(a);
    assert U32(a) + b == (a + b) - q * Two32;
    ModShift(a + b, q);
  }

  lemma ModShift(x: int, q: int)
    ensures (x - q * Two32) % Two32 == x % Two32
  {
    var r := x % Two32;
    var p := x / Two32;
    assert x == p * Two32 + r;
    assert x - q * Two32 == (p - q) * Two32 + r;
  }

  // ---- Card addresses ----

  /** The argument of a block command: high-capacity cards are addressed by block,
      standard cards by byte, computed as `block * 512` in 32 bits. */
  function CardAddress(highCapacity: bool, block: nat): (a: nat)
    ensures a < Two32
  {
    if highCapacity then U32(block) else U32(block * 512)
  }

  /** A standard card is sent the byte address of the block, so dividing by the
      block size gives the block back, for every block below 2^23 (4 GiB); a high
      capacity card is sent the block itself. */
  lemma CardAddressRoundTrip(highCapacity: bool, block: nat)
    requires block < Two32
    ensures highCapacity ==> CardAddress(highCapacity, block) == block
    ensures !highCapacity && block < 0x80_0000 ==>
      CardAddress(highCapacity, block) == block * 512 && CardAddress(highCapacity, block) / 512 == block
  {
  }

  /** Past 4 GiB the byte address of a standard card wraps: block 2^23 is sent as 0. */
  lemma StandardAddressWraps()
    ensures CardAddress(false, 0x80_0000) == 0 == CardAddress(false, 0)
  {
  }

  // ---- The SDMA bounce buffer ----

  /** How far start() moves the physical address of the 64 KiB allocation to reach
      the next 32 KiB boundary (a full 32 KiB when it is already aligned). */
  function BounceAdjust(phys: nat): nat
  {
    SdmaBufferSize - phys % SdmaBufferSize
  }

  predicate Aligned(addr: nat)
  {
    addr % SdmaBufferSize == 0
  }

  /** The adjusted window is 32 KiB-aligned, lies inside the 64 KiB allocation, and
      the adjustment is the smallest positive one that aligns it. */
  lemma BounceWindow(phys: nat)
    ensures 1 <= BounceAdjust(phys) <= SdmaBufferSize
    ensures Aligned(phys + BounceAdjust(phys))
    ensures phys + BounceAdjust(phys) + SdmaBufferSize <= phys + 2 * SdmaBufferSize
    ensures forall a :: phys < a < phys + BounceAdjust(phys) ==> !Aligned(a)
  {
    var q, r := phys / SdmaBufferSize, phys % SdmaBufferSize;
    assert phys == q * SdmaBufferSize + r;
    assert phys + BounceAdjust(phys) == (q + 1) * SdmaBufferSize;
    forall a | phys < a < phys + BounceAdjust(phys)
      ensures !Aligned(a)
    {
      assert a == q * SdmaBufferSize + (r + (a - phys));
      assert 0 < r + (a - phys) < SdmaBufferSize;
    }
  }

  /** 2^32 is a multiple of 32 KiB, so an aligned address stays aligned in 32 bits. */
  lemma AlignedWraps(x: nat)
    requires Aligned(x)
    ensures Aligned(U32(x))
  {
    var q, k := x / Two32, x / SdmaBufferSize;
    assert x == q * Two32 + U32(x);
    assert x == k * SdmaBufferSize;
    assert U32(x) == (k - q * 131072) * SdmaBufferSize;
  }

  /** The Block Size value of the SDMA transfers: 512-byte blocks in bits 11:0 and
      SDMA buffer boundary 3 in bits 14:12, which section 2.2.2 of the SD Host
      Controller Simplified Specification 2.00 defines as 32 KiB, the size of the
      bounce buffer. */
  const SdmaBlockSize: bv16 := 512 | SdmaBufferSizeInReg

  lemma SdmaBlockSizeFields()
    ensures SdmaBlockSize & 0xFFF == 512
    ensures (SdmaBlockSize >> 12) & 7 == 3
    ensures SdmaBufferSize == 4096 * 8
  {
  }

  // ---- Data port words and bytes ----

  /** The four bytes of a data port word in memory order (little-endian). */
  function WordBytes(w: bv32): (b: seq<bv8>)
    ensures |b| == 4
  {
    [(w & 0xFF) as bv8, ((w >> 8) & 0xFF) as bv8, ((w >> 16) & 0xFF) as bv8, (w >> 24) as bv8]
  }

  /** The word four bytes form when read through a UInt32 pointer. */
  function BytesWord(b0: bv8, b1: bv8, b2: bv8, b3: bv8): bv32
  {
    (b0 as bv32) | ((b1 as bv32) << 8) | ((b2 as bv32) << 16) | ((b3 as bv32) << 24)
  }

  lemma WordRoundTrip(w: bv32)
    ensures var b := WordBytes(w); BytesWord(b[0], b[1], b[2], b[3]) == w
  {
  }

  lemma BytesRoundTrip(b0: bv8, b1: bv8, b2: bv8, b3: bv8)
    ensures WordBytes(BytesWord(b0, b1, b2, b3)) == [b0, b1, b2, b3]
  {
  }

  /** The bytes of a sequence of words. */
  function Bytes(ws: seq<bv32>): (b: seq<bv8>)
    ensures |b| == 4 * |ws|
  {
    if ws == [] then [] else WordBytes(ws[0]) + Bytes(ws[1..])
  }

  /** The words of a byte sequence whose length is a multiple of four. */
  function Words(b: seq<bv8>): (ws: seq<bv32>)
    requires |b| % 4 == 0
    ensures 4 * |ws| == |b|
  {
    if b == [] then [] else [BytesWord(b[0], b[1], b[2], b[3])] + Words(b[4..])
  }

  /** Reading words through the data port and storing them as bytes, and taking
      bytes as words to write them, are inverse. */
  lemma {:induction false} WordsOfBytes(ws: seq<bv32>)
    ensures Words(Bytes(ws)) == ws
  {
    if ws != [] {
      WordRoundTrip(ws[0]);
      assert Bytes(ws)[4..] == Bytes(ws[1..]);
      WordsOfBytes(ws[1..]);
    }
  }

  lemma {:induction false} BytesOfWords(b: seq<bv8>)
    requires |b| % 4 == 0
    ensures Bytes(Words(b)) == b
  {
    if b != [] {
      BytesRoundTrip(b[0], b[1], b[2], b[3]);
      BytesOfWords(b[4..]);
      assert b == b[..4] + b[4..];
    }
  }

  /** `count` words of the data port from read number `from` on. */
  function PortWords(d: Device, from: nat, count: nat): (ws: seq<bv32>)
    ensures |ws| == count
    ensures forall i :: 0 <= i < count ==> ws[i] == d.dataPort(from + i)
  {
    seq(count, i requires 0 <= i < count => d.dataPort(from + i))
  }

  // ---- Cutting a PIO request into transfers ----

  const MaxPioBlocks: nat := 2048

  /** The multi-block PIO transfers doAsyncReadWrite runs for blocks `done` to
      `nblks` of a request starting at `block`: at most 2048 blocks each, the
      card block counted in 32 bits, the buffer offset counted from the request. */
  function MultiChunks(write: bool, block: nat, nblks: nat, done: nat): seq<Event>
    requires done <= nblks
    decreases nblks - done
  {
    if done == nblks then []
    else
      var b := ChunkSize(nblks - done);
      [Transfer(write, true, U32(block + done), b, done)] + MultiChunks(write, block, nblks, done + b)
  }

  /** MIN(2048, n): the blocks of the next multi-block transfer. */
  function ChunkSize(n: nat): (b: nat)
    ensures b <= n && b <= MaxPioBlocks
    ensures n > 0 ==> b >= 1
  {
    if n < MaxPioBlocks then n else MaxPioBlocks
  }

  /** The single-block transfers for blocks `done` to `nblks`. */
  function SingleSteps(write: bool, block: nat, nblks: nat, done: nat): seq<Event>
    requires done <= nblks
    decreases nblks - done
  {
    if done == nblks then []
    else [Transfer(write, false, U32(block + done), 1, done)] + SingleSteps(write, block, nblks, done + 1)
  }

  /** The transfers of a request: none for zero blocks; otherwise each has 1 to 2048
      blocks, the first starts at offset 0, each starts where the one before it
      ends, the last ends at `nblks`, and each addresses card block
      `block + offset` in 32 bits. */
  predicate Tiles(ts: seq<Event>, block: nat, nblks: nat, done: nat)
  {
    (forall i :: 0 <= i < |ts| ==>
       ts[i].Transfer? && 1 <= ts[i].count <= MaxPioBlocks && ts[i].block == U32(block + ts[i].offset))
    && (forall i :: 0 <= i < |ts| - 1 ==> ts[i + 1].offset == ts[i].offset + ts[i].count)
    && (ts == [] <==> done == nblks)
    && (ts != [] ==> ts[0].offset == done && ts[|ts| - 1].offset + ts[|ts| - 1].count == nblks)
  }

  /** A first transfer followed by transfers tiling the rest tiles the whole. */
  lemma TilesCons(e: Event, rest: seq<Event>, block: nat, nblks: nat, done: nat)
    requires e.Transfer? && 1 <= e.count <= MaxPioBlocks && e.offset == done && e.block == U32(block + done)
    requires done + e.count <= nblks && Tiles(rest, block, nblks, done + e.count)
    ensures Tiles([e] + rest, block, nblks, done)
  {
    var ts := [e] + rest;
    forall i | 1 <= i < |ts|
      ensures ts[i] == rest[i - 1]
    {
    }
    assert rest != [] ==> ts[1] == rest[0];
  }

  lemma {:induction false} MultiChunksTile(write: bool, block: nat, nblks: nat, done: nat)
    requires done <= nblks
    ensures Tiles(MultiChunks(write, block, nblks, done), block, nblks, done)
    decreases nblks - done
  {
    if done < nblks {
      var b := ChunkSize(nblks - done);
      var first, rest := Transfer(write, true, U32(block + done), b, done), MultiChunks(write, block, nblks, done + b);
      assert MultiChunks(write, block, nblks, done) == [first] + rest;
      MultiChunksTile(write, block, nblks, done + b);
      TilesCons(first, rest, block, nblks, done);
    }
  }

  lemma {:induction false} SingleStepsTile(write: bool, block: nat, nblks: nat, done: nat)
    requires done <= nblks
    ensures Tiles(SingleSteps(write, block, nblks, done), block, nblks, done)
    ensures |SingleSteps(write, block, nblks, done)| == nblks - done
    decreases nblks - done
  {
    if done < nblks {
      SingleStepsTile(write, block, nblks, done + 1);
      TilesCons(Transfer(write, false, U32(block + done), 1, done), SingleSteps(write, block, nblks, done + 1),
        block, nblks, done);
    }
  }

  // ---- SDMA copies ----

  /** The copies of an SDMA read after `k` DMA interrupts: each interrupt copies the
      full 32 KiB bounce buffer to `offset * 512`, the offset advancing by 64 blocks,
      all in 32 bits. */
  function ReadCopies(k: nat): (cs: seq<Event>)
    ensures |cs| == k
  {
    seq(k, i requires 0 <= i < k => ToBuffer(U32(U32(64 * i) * 512), SdmaBufferSize))
  }

  /** The last copy of an SDMA read, on transfer complete: the blocks still counted
      as remaining, at the current offset. */
  function ReadTail(k: nat, remaining: nat): Event
  {
    ToBuffer(U32(U32(64 * k) * 512), U32(remaining * 512))
  }

  /** When the controller interrupts at most once per full bounce buffer of the
      request, the copies of a successful SDMA read cover the request buffer
      exactly: each starts where the one before ends and the last ends at
      `nblks * 512`. */
  lemma ReadCopiesTile(k: nat, nblks: nat)
    requires 64 * k <= nblks && nblks * 512 < Two32
    ensures forall i :: 0 <= i < k ==> ReadCopies(k)[i].offset == i * SdmaBufferSize
    ensures ReadTail(k, nblks - 64 * k).offset == k * SdmaBufferSize
    ensures ReadTail(k, nblks - 64 * k).offset + ReadTail(k, nblks - 64 * k).length == nblks * 512
  {
    forall i | 0 <= i < k
      ensures ReadCopies(k)[i].offset == i * SdmaBufferSize
    {
      assert 64 * i * 512 < Two32;
    }
  }

  /** The blocks one refill of an SDMA write takes: min(64, nblks - done). */
  function FillBlocks(nblks: nat, done: nat): (b: nat)
    requires done <= nblks
    ensures b <= nblks - done && b <= 64
    ensures done < nblks ==> b >= 1
  {
    if nblks - done < 64 then nblks - done else 64
  }

  /** The bytes one refill copies: min(32768, (nblks - done) * 512), the product
      computed in 32 bits. */
  function FillLength(nblks: nat, done: nat): (n: nat)
    requires done <= nblks
    ensures n <= SdmaBufferSize
  {
    if U32((nblks - done) * 512) < SdmaBufferSize then U32((nblks - done) * 512) else SdmaBufferSize
  }

  /** The copies of an SDMA write: `count` refills of the bounce buffer starting at
      block `done`, each from byte `done * 512` (in 32 bits) of the request buffer. */
  function Fills(nblks: nat, done: nat, count: nat): seq<Event>
    requires done <= nblks
    decreases count
  {
    if count == 0 then []
    else [FromBuffer(U32(done * 512), FillLength(nblks, done))] + Fills(nblks, done + FillBlocks(nblks, done), count - 1)
  }

  /** The block after the last refill. */
  function FillEnd(nblks: nat, done: nat, count: nat): (e: nat)
    requires done <= nblks
    ensures done <= e <= nblks
    decreases count
  {
    if count == 0 then done else FillEnd(nblks, done + FillBlocks(nblks, done), count - 1)
  }

  /** For a request below 4 GiB, refills never read past the request, each takes
      at most the bounce buffer, each starts where the one before ended, and
      together they end at the block after the last refill. */
  lemma {:induction false} FillsContiguous(nblks: nat, done: nat, count: nat)
    requires done <= nblks && nblks * 512 < Two32
    decreases count
    ensures |Fills(nblks, done, count)| == count
    ensures forall i :: 0 <= i < count ==> Fills(nblks, done, count)[i].FromBuffer?
    ensures forall i :: 0 <= i < count ==>
      Fills(nblks, done, count)[i].length <= SdmaBufferSize
      && Fills(nblks, done, count)[i].offset + Fills(nblks, done, count)[i].length <= nblks * 512
    ensures count > 0 ==> Fills(nblks, done, count)[0].offset == done * 512
    ensures forall i :: 0 <= i < count - 1 ==>
      Fills(nblks, done, count)[i + 1].offset
        == Fills(nblks, done, count)[i].offset + Fills(nblks, done, count)[i].length
    ensures count > 0 ==>
      Fills(nblks, done, count)[count - 1].offset + Fills(nblks, done, count)[count - 1].length
        == FillEnd(nblks, done, count) * 512
  {
    if count > 0 {
      var b := FillBlocks(nblks, done);
      assert FillLength(nblks, done) == b * 512;
      FillsContiguous(nblks, done + b, count - 1);
    }
  }

  /** One more refill extends the refills by one copy. */
  lemma {:induction false} FillsStep(nblks: nat, done: nat, count: nat)
    requires done <= nblks
    decreases count
    ensures var e := FillEnd(nblks, done, count);
      Fills(nblks, done, count + 1) == Fills(nblks, done, count) + [FromBuffer(U32(e * 512), FillLength(nblks, e))]
      && FillEnd(nblks, done, count + 1) == e + FillBlocks(nblks, e)
  {
    if count > 0 {
      FillsStep(nblks, done + FillBlocks(nblks, done), count - 1);
    }
  }

  // ---- Bounded status polls of the PIO routines ----

  /** What a PIO loop waits for: all bits of a NormalIntStatus mask, or any bit of a
      PresentState mask. */
  datatype Cond = StatusAll(mask: bv16) | PresentAny(bits: bv32)

  predicate Satisfied(d: Device, c: Cond, t: nat)
  {
    match c
    case StatusAll(m) => d.intStatus(t) & m == m
    case PresentAny(m) => d.presentState(t) & m != 0
  }

  datatype PollResult = Ready | Failed | Expired

  /** A poll gives up after 11 rounds of 100001 unsuccessful tries. */
  const PollTries: nat := 11 * 100001

  /** The outcome of a poll from read `t` with `left` tries remaining, and the read
      clock after it. Each try reads the awaited register, then NormalIntStatus for
      the error bit 0x8000. */
  function Poll(d: Device, c: Cond, t: nat, left: nat): (r: (PollResult, nat))
    requires left >= 1
    // `t` in the measure keeps the verifier from unrolling PollTries tries.
    decreases left, t
  {
    if Satisfied(d, c, t) then (Ready, t + 1)
    else if Errored(d.intStatus(t + 1)) then (Failed, t + 2)
    else if left == 1 then (Expired, t + 2)
    else Poll(d, c, t + 2, left - 1)
  }

  /** The read of the awaited register in try `k` of a poll started at read `t`. */
  function TrySample(t: nat, k: nat): nat
  {
    t + 2 * k
  }

  /** A try that saw neither the condition nor the error bit. */
  predicate Quiet(d: Device, c: Cond, s: nat)
  {
    !Satisfied(d, c, s) && !Errored(d.intStatus(s + 1))
  }

  /** A poll ends within its tries. It is Ready only when its last read showed the
      condition, Failed only when the condition was absent and the error bit then
      set, Expired only after all its tries; every try before its last saw neither
      the condition nor the error bit, and so did the last try of an expired poll. */
  lemma {:induction false} PollMeaning(d: Device, c: Cond, t: nat, left: nat)
    requires left >= 1
    ensures var (r, e) := Poll(d, c, t, left);
      t < e <= t + 2 * left
      && (r == Ready ==> Satisfied(d, c, e - 1))
      && (r != Ready ==> e >= t + 2 && !Satisfied(d, c, e - 2))
      && (r == Failed ==> Errored(d.intStatus(e - 1)))
      && (r == Expired ==> e == t + 2 * left && Quiet(d, c, e - 2))
      && (forall k: nat :: TrySample(t, k) + 2 < e ==> Quiet(d, c, TrySample(t, k)))
    decreases left
  {
    if Quiet(d, c, t) && left > 1 {
      PollMeaning(d, c, t + 2, left - 1);
      var e := Poll(d, c, t, left).1;
      forall k: nat | TrySample(t, k) + 2 < e
        ensures Quiet(d, c, TrySample(t, k))
      {
        if k > 0 {
          assert TrySample(t, k) == TrySample(t + 2, k - 1);
        }
      }
    }
  }

  // ---- waitIntStatus ----

  /** The read at time t stops waitIntStatus: the error bit or a mask bit is set. */
  predicate Hit(d: Device, mask: bv16, t: nat)
  {
    Errored(d.intStatus(t)) || AnyOf(d.intStatus(t), mask)
  }

  /** The read at which waitIntStatus stops: the first read from `t` on that shows
      the error bit or any bit of `mask`. */
  function FirstHit(d: Device, mask: bv16, t: nat): (e: nat)
    requires Live(d)
    ensures e >= t && Hit(d, mask, e)
    decreases if t < d.horizon then d.horizon - t else 0
  {
    if Hit(d, mask, t) then t else FirstHit(d, mask, t + 1)
  }

  /** No read before the first hit shows the error bit or a mask bit. */
  lemma {:induction false} FirstHitIsFirst(d: Device, mask: bv16, t: nat)
    requires Live(d)
    ensures forall j :: t <= j < FirstHit(d, mask, t) ==> !Hit(d, mask, j)
    decreases if t < d.horizon then d.horizon - t else 0
  {
    if !Hit(d, mask, t) {
      FirstHitIsFirst(d, mask, t + 1);
    }
  }
}
