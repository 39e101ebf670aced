/**
 * Decoding of the card identification (CID) and card specific data (CSD)
 * registers from the four 32-bit Response registers after an R2 command.
 *
 * For a 136-bit response the host controller holds bits 127:8 of the card
 * register in its response bits 119:0 (section 2.2.7 of the SD Host Controller
 * Simplified Specification 2.00): Response[k] bit j is card-register bit
 * 32k + j + 8.
 */
module CardRegisters {
  import RegisterMap

  /** Response[0] .. Response[3]. */
  datatype Response = Response(r0: bv32, r1: bv32, r2: bv32, r3: bv32)

  /** The CID record of one slot as the driver fills it. */
  datatype Cid = Cid(mid: bv8, oid: bv16, pnm: seq<bv8>, prv: seq<bv8>, psn: bv32, mdt: seq<bv8>)

  /** parseCID. MID, PRV and MDT cast to 8 bits before shifting, which leaves
      them zero; PNM[5] is the terminator. */
  function ParseCid(r: Response): (c: Cid)
    ensures |c.pnm| == 6 && |c.prv| == 2 && |c.mdt| == 2
    ensures c.mid == 0 && c.prv == [0, 0] && c.mdt == [0, 0] && c.pnm[5] == 0
  {
    Cid(
      mid := CastShift(r.r3 & 0xFF00_0000, 24),
      oid := CidOid(r.r3),
      pnm := CidPnm(r.r3, r.r2),
      prv := [CastShift(r.r1 & 0xF000_0000, 28), CastShift(r.r1 & 0xF00_0000, 24)],
      psn := CidPsn(r.r1, r.r0),
      mdt := [CastShift(r.r0 & 0xF_F000, 12), CastShift(r.r1 & 0xF00, 8)]
    )
  }

  /** A field read as (UInt8)(x) >> s: the value is cut to 8 bits before the shift. */
  function CastShift(x: bv32, s: nat): (b: bv8)
    requires s <= 32
    ensures x & 0xFF == 0 ==> b == 0
  {
    RegisterMap.Store8(RegisterMap.Store8(x) as bv32 >> s)
  }

  /** OID as parseCID reads it: bits 15:8 of Response[3] (the 16-bit cast drops bits 23:16). */
  function CidOid(r3: bv32): (oid: bv16)
    ensures oid as bv32 == (r3 >> 8) & 0xFF
  {
    RegisterMap.Store16(RegisterMap.Store16(r3 & 0xFF_FF00) as bv32 >> 8)
  }

  /** PNM as parseCID reads it: the low byte of Response[3], the bytes of
      Response[2] from the top down, and a zero terminator. */
  function CidPnm(r3: bv32, r2: bv32): (pnm: seq<bv8>)
    ensures |pnm| == 6 && pnm[5] == 0
  {
    [RegisterMap.Store8(r3 & 0xFF), RegisterMap.Store8((r2 & 0xFF00_0000) >> 24),
     RegisterMap.Store8((r2 & 0xFF_0000) >> 16), RegisterMap.Store8((r2 & 0xFF00) >> 8),
     RegisterMap.Store8(r2 & 0xFF), 0]
  }

  /** PSN as parseCID reads it: bits 23:0 of Response[1] above bits 31:24 of Response[0]. */
  function CidPsn(r1: bv32, r0: bv32): bv32
  {
    ((r1 & 0xFF_FFFF) << 8) | ((r0 & 0xFF00_0000) >> 24)
  }

  /** The response bits the parsed CID depends on: bits 15:0 of Response[3], all of
      Response[2], bits 23:0 of Response[1] and bits 31:24 of Response[0]. */
  predicate SameCidBits(a: Response, b: Response)
  {
    a.r3 & 0xFFFF == b.r3 & 0xFFFF && a.r2 == b.r2
    && a.r1 & 0xFF_FFFF == b.r1 & 0xFF_FFFF && a.r0 >> 24 == b.r0 >> 24
  }

  /** Two responses parse to the same CID exactly when they agree on those bits,
      so a card change that only shows elsewhere in the response goes unnoticed
      by the CID comparison of setup. */
  lemma CidEqualIff(a: Response, b: Response)
    ensures ParseCid(a) == ParseCid(b) <==> SameCidBits(a, b)
  {
    if SameCidBits(a, b) {
      CidDependsOnly(a, b);
    }
    if ParseCid(a) == ParseCid(b) {
      CidParts(a, b);
      CidBitsFromParts(a, b);
    }
  }

  lemma CidDependsOnly(a: Response, b: Response)
    requires SameCidBits(a, b)
    ensures ParseCid(a) == ParseCid(b)
  {
    CidFieldsFromBits(a.r3, a.r2, a.r1, a.r0, b.r3, b.r2, b.r1, b.r0);
    CidFromParts(a, b);
  }

  lemma CidFromParts(a: Response, b: Response)
    requires CidOid(a.r3) == CidOid(b.r3) && CidPnm(a.r3, a.r2) == CidPnm(b.r3, b.r2)
    requires CidPsn(a.r1, a.r0) == CidPsn(b.r1, b.r0)
    ensures ParseCid(a) == ParseCid(b)
  {
  }

  lemma CidParts(a: Response, b: Response)
    requires ParseCid(a) == ParseCid(b)
    ensures CidOid(a.r3) == CidOid(b.r3) && CidPnm(a.r3, a.r2) == CidPnm(b.r3, b.r2)
    ensures CidPsn(a.r1, a.r0) == CidPsn(b.r1, b.r0)
  {
  }

  lemma CidBitsFromParts(a: Response, b: Response)
    requires CidOid(a.r3) == CidOid(b.r3) && CidPnm(a.r3, a.r2) == CidPnm(b.r3, b.r2)
    requires CidPsn(a.r1, a.r0) == CidPsn(b.r1, b.r0)
    ensures SameCidBits(a, b)
  {
    CidBitsFromFields(a.r3, a.r2, a.r1, a.r0, b.r3, b.r2, b.r1, b.r0);
  }

  lemma CidFieldsFromBits(x3: bv32, x2: bv32, x1: bv32, x0: bv32, y3: bv32, y2: bv32, y1: bv32, y0: bv32)
    requires x3 & 0xFFFF == y3 & 0xFFFF && x2 == y2
    requires x1 & 0xFF_FFFF == y1 & 0xFF_FFFF && x0 >> 24 == y0 >> 24
    ensures CidPsn(x1, x0) == CidPsn(y1, y0)
    ensures CidOid(x3) == CidOid(y3)
    ensures CidPnm(x3, x2) == CidPnm(y3, y2)
  {
    PsnFromBits(x1, x0, y1, y0);
    OidBits(x3, y3);
    LowByte(x3, y3);
  }

  lemma CidBitsFromFields(x3: bv32, x2: bv32, x1: bv32, x0: bv32, y3: bv32, y2: bv32, y1: bv32, y0: bv32)
    requires CidPsn(x1, x0) == CidPsn(y1, y0)
    requires CidOid(x3) == CidOid(y3)
    requires CidPnm(x3, x2) == CidPnm(y3, y2)
    ensures x3 & 0xFFFF == y3 & 0xFFFF && x2 == y2
    ensures x1 & 0xFF_FFFF == y1 & 0xFF_FFFF && x0 >> 24 == y0 >> 24
  {
    var pa, pb := CidPnm(x3, x2), CidPnm(y3, y2);
    assert pa[0] == pb[0] && pa[1] == pb[1] && pa[2] == pb[2] && pa[3] == pb[3] && pa[4] == pb[4];
    Low16FromBytes(x3, y3);
    WordFromBytes(x2, y2);
    PsnParts(x1, x0, y1, y0);
  }

  lemma OidBits(x: bv32, y: bv32)
    requires x & 0xFFFF == y & 0xFFFF
    ensures CidOid(x) == CidOid(y)
  {
    assert x & 0xFF00 == y & 0xFF00;
  }

  lemma LowByte(x: bv32, y: bv32)
    requires x & 0xFFFF == y & 0xFFFF
    ensures RegisterMap.Store8(x & 0xFF) == RegisterMap.Store8(y & 0xFF)
  {
    assert x & 0xFF == y & 0xFF;
  }

  lemma PsnFromBits(x1: bv32, x0: bv32, y1: bv32, y0: bv32)
    requires x1 & 0xFF_FFFF == y1 & 0xFF_FFFF && x0 >> 24 == y0 >> 24
    ensures CidPsn(x1, x0) == CidPsn(y1, y0)
  {
    assert x1 & 0xFF_FFFF == y1 & 0xFF_FFFF;
    assert x0 >> 24 == y0 >> 24;
  }

  lemma Low16FromBytes(x: bv32, y: bv32)
    requires RegisterMap.Store8(x & 0xFF) == RegisterMap.Store8(y & 0xFF)
    requires CidOid(x) == CidOid(y)
    ensures x & 0xFFFF == y & 0xFFFF
  {
  }

  lemma WordFromBytes(x: bv32, y: bv32)
    requires RegisterMap.Store8((x & 0xFF00_0000) >> 24) == RegisterMap.Store8((y & 0xFF00_0000) >> 24)
    requires RegisterMap.Store8((x & 0xFF_0000) >> 16) == RegisterMap.Store8((y & 0xFF_0000) >> 16)
    requires RegisterMap.Store8((x & 0xFF00) >> 8) == RegisterMap.Store8((y & 0xFF00) >> 8)
    requires RegisterMap.Store8(x & 0xFF) == RegisterMap.Store8(y & 0xFF)
    ensures x == y
  {
  }

  lemma PsnParts(x1: bv32, x0: bv32, y1: bv32, y0: bv32)
    requires CidPsn(x1, x0) == CidPsn(y1, y0)
    ensures x1 & 0xFF_FFFF == y1 & 0xFF_FFFF && x0 >> 24 == y0 >> 24
  {
  }
}
