/**
 * Decoding of the card specific data (CSD) register from the Response
 * registers after SEND_CSD, as parseCSD does it: the last valid 512-byte
 * block number, which the driver reports as the highest block of the medium.
 */
module CsdRegister {
  import opened CardRegisters

  datatype Option<T> = None | Some(value: T)


  /** 2^k. */
  function Pow2(k: nat): (p: nat)
    ensures p >= 1
  {
    if k == 0 then 1 else 2 * Pow2(k - 1)
  }

  /** CSD_STRUCTURE, CSD bits 127:126: 0 for version 1.0, 1 for version 2.0. */
  function CsdStructure(r: Response): bv32 { (r.r3 & 0xC0_0000) >> 22 }

  /** READ_BL_LEN, CSD bits 83:80. */
  function ReadBlLen(r: Response): bv32 { (r.r2 & 0xF00) >> 8 }

  /** C_SIZE of a version 1.0 CSD, bits 73:62. */
  function CSizeV1(r: Response): bv32 { ((r.r2 & 3) << 10) | ((r.r1 & 0xFFC0_0000) >> 22) }

  /** C_SIZE_MULT, CSD bits 49:47. */
  function CSizeMult(r: Response): bv32 { (r.r1 & 0x380) >> 7 }

  /** The version 1.0 branch of parseCSD: the block count in 512-byte blocks minus
      one, computed in C int arithmetic and stored in the 32-bit maxBlock. */
  function LastBlockV1(r: Response): (m: nat)
    ensures m < 0x1_0000_0000
  {
    V1LastBlock(ReadBlLen(r) as int, CSizeV1(r) as int, CSizeMult(r) as int)
  }

  /** (C_SIZE + 1) * ((1 << READ_BL_LEN) / 512) * (1 << (C_SIZE_MULT + 2)) - 1, as a
      32-bit unsigned value. */
  function V1LastBlock(blLen: nat, cSize: nat, cSizeMult: nat): (m: nat)
    ensures m < 0x1_0000_0000
  {
    ((cSize + 1) * (Pow2(blLen) / 512) * Pow2(cSizeMult + 2) - 1) % 0x1_0000_0000
  }

  /** The device size the version 2.0 branch of parseCSD assembles: bits 31:24 and
      23:16 of Response[1] and bits 5:0 of Response[2]. */
  function UnitsAsWritten(r: Response): bv32
  {
    ((r.r1 >> 24) & 0xFFFF) | ((r.r1 & 0xFF_0000) >> 8) | ((r.r2 & 0x3F) << 16)
  }

  /** parseCSD as written: the new maxBlock, or None when the structure code is
      2 or 3 and maxBlock is left unchanged. */
  function ParseCsdAsWritten(r: Response): (m: Option<nat>)
    ensures m.Some? <==> CsdStructure(r) <= 1
    ensures m.Some? ==> m.value < 0x1_0000_0000
  {
    var s := CsdStructure(r);
    if s == 0 then Some(LastBlockV1(r))
    else if s == 1 then Some((UnitsAsWritten(r) as int + 1) * 1024 % 0x1_0000_0000)
    else None
  }

  /** C_SIZE of a version 2.0 CSD, bits 69:48. */
  function CSizeV2(r: Response): (c: bv32)
    ensures c < 0x40_0000
  {
    (r.r1 >> 8) & 0x3F_FFFF
  }

  /** parseCSD with the version 2.0 device size read from CSD bits 69:48 and the
      result made the last block number, as in the version 1.0 branch. */
  function ParseCsd(r: Response): (m: Option<nat>)
    ensures m.Some? <==> CsdStructure(r) <= 1
    ensures m.Some? ==> m.value < 0x1_0000_0000
    ensures CsdStructure(r) == 0 ==> m == ParseCsdAsWritten(r)
  {
    var s := CsdStructure(r);
    if s == 0 then Some(LastBlockV1(r))
    else if s == 1 then Some((CSizeV2(r) as int + 1) * 1024 - 1)
    else None
  }

  // ---- Reference encoders: a CSD as the controller presents it ----

  /** The response holding a version 1.0 CSD with the given fields and every other
      bit zero. */
  function CsdV1Response(readBlLen: bv32, cSize: bv32, cSizeMult: bv32): Response
    requires readBlLen < 16 && cSize < 0x1000 && cSizeMult < 8
  {
    Response(0, ((cSize & 0x3FF) << 22) | (cSizeMult << 7), (readBlLen << 8) | (cSize >> 10), 0)
  }

  /** The response holding a version 2.0 CSD with the given C_SIZE and every other
      bit zero apart from CSD_STRUCTURE. */
  function CsdV2Response(cSize: bv32): Response
    requires cSize < 0x40_0000
  {
    Response(0, cSize << 8, 0, 0x40_0000)
  }

  /** The capacity in bytes of a version 1.0 card (section 5.3.2 of the SD Physical
      Layer Simplified Specification 2.00): (C_SIZE + 1) * 2^(C_SIZE_MULT + 2)
      blocks of 2^READ_BL_LEN bytes. */
  function CapacityV1(readBlLen: nat, cSize: nat, cSizeMult: nat): nat
  {
    (cSize + 1) * Pow2(cSizeMult + 2) * Pow2(readBlLen)
  }

  /** The capacity in bytes of a version 2.0 card (section 5.3.3): (C_SIZE + 1) * 512 KiB. */
  function CapacityV2(cSize: nat): nat
  {
    (cSize + 1) * 512 * 1024
  }

  lemma {:induction false} Pow2Add(a: nat, b: nat)
    ensures Pow2(a + b) == Pow2(a) * Pow2(b)
  {
    if a > 0 {
      Pow2Add(a - 1, b);
    }
  }

  lemma {:induction false} Pow2Mono(a: nat, b: nat)
    requires a <= b
    ensures Pow2(a) <= Pow2(b)
  {
    if a < b {
      Pow2Mono(a, b - 1);
    }
  }

  /** The fields of a version 1.0 response read back as they were encoded. */
  lemma CsdV1Fields(readBlLen: bv32, cSize: bv32, cSizeMult: bv32)
    requires readBlLen < 16 && cSize < 0x1000 && cSizeMult < 8
    ensures CsdStructure(CsdV1Response(readBlLen, cSize, cSizeMult)) == 0
    ensures ReadBlLen(CsdV1Response(readBlLen, cSize, cSizeMult)) == readBlLen
    ensures CSizeV1(CsdV1Response(readBlLen, cSize, cSizeMult)) == cSize
    ensures CSizeMult(CsdV1Response(readBlLen, cSize, cSizeMult)) == cSizeMult
  {
  }

  /** For a version 1.0 card with a block length of 512 to 2048 bytes, parseCSD
      yields the number of the last 512-byte block of the card. */
  lemma CsdV1RoundTrip(readBlLen: bv32, cSize: bv32, cSizeMult: bv32)
    requires 9 <= readBlLen <= 11 && cSize < 0x1000 && cSizeMult < 8
    ensures ParseCsd(CsdV1Response(readBlLen, cSize, cSizeMult))
      == Some(CapacityV1(readBlLen as int, cSize as int, cSizeMult as int) / 512 - 1)
  {
    CsdV1Fields(readBlLen, cSize, cSizeMult);
    LastBlockV1Of(CsdV1Response(readBlLen, cSize, cSizeMult), readBlLen, cSize, cSizeMult);
    V1Arithmetic(readBlLen as int, cSize as int, cSizeMult as int);
  }

  lemma LastBlockV1Of(r: Response, b: bv32, c: bv32, m: bv32)
    requires ReadBlLen(r) == b && CSizeV1(r) == c && CSizeMult(r) == m
    ensures LastBlockV1(r) == V1LastBlock(b as int, c as int, m as int)
  {
  }

  lemma V1Arithmetic(b: nat, c: nat, m: nat)
    requires 9 <= b <= 11 && c < 0x1000 && m < 8
    ensures V1LastBlock(b, c, m) == CapacityV1(b, c, m) / 512 - 1
  {
    var lts := Pow2(b - 9);
    assert Pow2(b) / 512 == lts by {
      Pow2Add(b - 9, 9);
      assert Pow2(9) == 512;
    }
    var p := Pow2(m + 2);
    assert p <= 512 by { Pow2Mono(m + 2, 9); assert Pow2(9) == 512; }
    assert lts <= 4 by { Pow2Mono(b - 9, 2); assert Pow2(2) == 4; }
    var blocks := (c + 1) * lts * p;
    assert 1 <= blocks <= 0x1000 * 4 * 512 by {
      MulBound(c + 1, lts, 0x1000, 4);
      MulBound((c + 1) * lts, p, 0x1000 * 4, 512);
    }
    assert CapacityV1(b, c, m) == blocks * 512 by {
      Pow2Add(b - 9, 9);
      assert Pow2(9) == 512;
      MulAssoc(c + 1, p, lts, 512);
    }
  }

  lemma MulAssoc(x: nat, p: nat, l: nat, k: nat)
    ensures x * p * (l * k) == x * l * p * k
  {
  }

  lemma MulBound(x: nat, y: nat, xMax: nat, yMax: nat)
    requires 1 <= x <= xMax && 1 <= y <= yMax
    ensures 1 <= x * y <= xMax * yMax
  {
    assert x * y <= xMax * y <= xMax * yMax;
  }

  /** A block length field below 9 makes the 512-byte scale factor 0, and the
      version 1.0 result wraps to 0xFFFFFFFF. */
  lemma CsdV1ShortBlocks(r: Response)
    requires CsdStructure(r) == 0 && ReadBlLen(r) < 9
    ensures ParseCsdAsWritten(r) == Some(0xFFFF_FFFF)
  {
    var b := ReadBlLen(r);
    LastBlockV1Of(r, b, CSizeV1(r), CSizeMult(r));
    ShortBlockArithmetic(b as int, CSizeV1(r) as int, CSizeMult(r) as int);
  }

  lemma ShortBlockArithmetic(b: nat, c: nat, m: nat)
    requires b < 9
    ensures V1LastBlock(b, c, m) == 0xFFFF_FFFF
  {
    Pow2Mono(b, 8);
    assert Pow2(8) == 256;
    assert Pow2(b) / 512 == 0;
  }

  /** For a version 2.0 card, the corrected parseCSD yields the number of the last
      512-byte block of the card. */
  lemma CsdV2RoundTrip(cSize: bv32)
    requires cSize < 0x40_0000
    ensures CsdStructure(CsdV2Response(cSize)) == 1
    ensures ParseCsd(CsdV2Response(cSize)) == Some(CapacityV2(cSize as int) / 512 - 1)
  {
    CsdV2Fields(cSize);
  }

  lemma CsdV2Fields(cSize: bv32)
    requires cSize < 0x40_0000
    ensures CsdStructure(CsdV2Response(cSize)) == 1
    ensures CSizeV2(CsdV2Response(cSize)) == cSize
  {
  }

  /** As written, the version 2.0 branch reports the block count rather than the
      last block number: a card with C_SIZE 0 has blocks 0 to 1023 and the branch
      reports 1024. */
  lemma CsdV2CountNotLast()
    ensures ParseCsdAsWritten(CsdV2Response(0)) == Some(1024)
    ensures ParseCsd(CsdV2Response(0)) == Some(1023)
    ensures CapacityV2(0) / 512 == 1024
  {
    assert UnitsAsWritten(CsdV2Response(0)) == 0;
    CsdV2Fields(0);
  }

  /** As written, the version 2.0 branch takes the low byte of the device size
      from C_SIZE bits 21:16 and its top bits from reserved CSD bits: a card with
      C_SIZE 0x3B37 (about 7.4 GiB) is reported with device size 0x3B00. */
  lemma CsdV2SizeBytes()
    ensures UnitsAsWritten(CsdV2Response(0x3B37)) == 0x3B00
    ensures ParseCsdAsWritten(CsdV2Response(0x3B37)) == Some(0x3B01 * 1024)
    ensures ParseCsd(CsdV2Response(0x3B37)) == Some(0x3B38 * 1024 - 1)
  {
    assert UnitsAsWritten(CsdV2Response(0x3B37)) == 0x3B00;
    CsdV2Fields(0x3B37);
  }
}
