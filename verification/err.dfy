/**
 * The error-reporting registers as the testbench packs and unpacks them: ERRREACT
 * (the reaction to an illegal access and its lock bit), ERR_REQINFO and ERR_REQID (the
 * record of the last illegal access), and the HWCFG0 write that enables the IOPMP.
 */
module ErrRegs {
  import opened Bits
  import opened TbBus
  import Regs = RvIopmpRegs

  /** A one-bit bitarray (int2ba(0) or int2ba(1)) as an integer. */
  function B(b: bool): nat
  {
    if b then 1 else 0
  }

  /** (w >> i) & 1, as the testbench isolates one bit. */
  function BitOf(w: nat, i: nat): nat
  {
    And(Shr(w, i), 1)
  }

  lemma BitOfIsBit(w: nat, i: nat)
    ensures BitOf(w, i) == if Bit(w, i) then 1 else 0
  {
    AndOne(Shr(w, i));
  }

  // ---------------------------------------------------------------------------
  // ERRREACT

  /** set_errreact: int2ba(0, 23) + iwe + int2ba(0, 3) + ire + int2ba(0, 2) + ie + lock,
      written as four bytes. */
  function SetErrreact(lock: bool, ie: bool, ire: bool, iwe: bool): (w: RegWrite)
    ensures w.offset == Regs.Offset(Regs.Errreact) && w.bytes == 4
  {
    RegWrite(Regs.Offset(Regs.Errreact), B(iwe) * 0x100 + B(ire) * 0x10 + B(ie) * 2 + B(lock), 4)
  }

  /** read_errreact as written: one byte, split into (lock, ie, ire, iwe) at bits 0, 1, 4
      and 8. */
  function ReadErrreact(reg: nat): (r: (nat, nat, nat, nat))
    ensures r.0 <= 1 && r.1 <= 1 && r.2 <= 1 && r.3 <= 1
  {
    var b := ReadBytes(reg, 1);
    (And(b, 1), BitOf(b, 1), BitOf(b, 4), BitOf(b, 8))
  }

  /** read_errreact reading the whole four-byte register. */
  function ReadErrreactWord(reg: nat): (r: (nat, nat, nat, nat))
    ensures r.0 <= 1 && r.1 <= 1 && r.2 <= 1 && r.3 <= 1
  {
    var b := ReadBytes(reg, 4);
    (And(b, 1), BitOf(b, 1), BitOf(b, 4), BitOf(b, 8))
  }

  /** The word set_errreact writes holds lock, ie, ire and iwe in the header's L, IE, IRE
      and IWE bits, and 0 in every other ERRREACT field (RRE, RWE, PEE, RPE) and in the
      unnamed bits 2 and 3. */
  lemma ErrreactFields(lock: bool, ie: bool, ire: bool, iwe: bool)
    ensures var d := SetErrreact(lock, ie, ire, iwe).data;
      && d < 0x200
      && Bit(d, Regs.ERRREACT_L_BIT) == lock && Bit(d, Regs.ERRREACT_IE_BIT) == ie
      && Bit(d, Regs.ERRREACT_IRE_BIT) == ire && Bit(d, Regs.ERRREACT_IWE_BIT) == iwe
      && Extract(d, Regs.ERRREACT_RRE_FIELD) == 0 && Extract(d, Regs.ERRREACT_RWE_FIELD) == 0
      && !Bit(d, Regs.ERRREACT_PEE_BIT) && Extract(d, Regs.ERRREACT_RPE_FIELD) == 0
      && !Bit(d, 2) && !Bit(d, 3)
  {
    var d := SetErrreact(lock, ie, ire, iwe).data;
    Pow2Values();
    ErrreactLowBits(lock, ie, ire, iwe);
    ErrreactGapBits(lock, ie, ire, iwe);
    ErrreactHighBits(d);
    ErrreactRre(d, iwe);
  }

  lemma ErrreactLowBits(lock: bool, ie: bool, ire: bool, iwe: bool)
    ensures var d := SetErrreact(lock, ie, ire, iwe).data;
      && Bit(d, 0) == lock && Bit(d, 1) == ie && Bit(d, 4) == ire && Bit(d, 8) == iwe
  {
    var d := SetErrreact(lock, ie, ire, iwe).data;
    Pow2Values();
    assert Shr(d, 0) == d;
    assert Shr(d, 1) == B(iwe) * 0x80 + B(ire) * 8 + B(ie);
    assert Shr(d, 4) == B(iwe) * 0x10 + B(ire);
    assert Shr(d, 8) == B(iwe);
  }

  /** Bits 2 and 3, between IE and IRE, are the int2ba(0, 2) of the written word. */
  lemma ErrreactGapBits(lock: bool, ie: bool, ire: bool, iwe: bool)
    ensures var d := SetErrreact(lock, ie, ire, iwe).data;
      !Bit(d, 2) && !Bit(d, 3)
  {
    var d := SetErrreact(lock, ie, ire, iwe).data;
    Pow2Values();
    assert Shr(d, 2) == B(iwe) * 0x40 + B(ire) * 4;
    assert Shr(d, 3) == B(iwe) * 0x20 + B(ire) * 2;
  }

  /** RRE (bits 5-7) of iwe * 0x100 + (bits below 5) is 0. */
  lemma ErrreactRre(d: nat, iwe: bool)
    requires d / 0x20 == B(iwe) * 8
    ensures Extract(d, Regs.ERRREACT_RRE_FIELD) == 0
  {
    Pow2Values();
    AndLowMask(B(iwe) * 8, 3);
  }

  /** A word below 0x200 has nothing from bit 9 up. */
  lemma ErrreactHighBits(d: nat)
    requires d < 0x200
    ensures Extract(d, Regs.ERRREACT_RWE_FIELD) == 0
    ensures !Bit(d, Regs.ERRREACT_PEE_BIT) && Extract(d, Regs.ERRREACT_RPE_FIELD) == 0
  {
    Pow2Values();
    Pow2Monotone(9, 28);
    Pow2Monotone(9, 29);
    assert Shr(d, 9) == 0;
    assert Shr(d, 28) == 0;
    assert Shr(d, 29) == 0;
  }

  /** Reading all four bytes returns the four flags set_errreact wrote. */
  lemma ErrreactRoundTrip(lock: bool, ie: bool, ire: bool, iwe: bool)
    ensures ReadErrreactWord(SetErrreact(lock, ie, ire, iwe).data) == (B(lock), B(ie), B(ire), B(iwe))
  {
    var d := SetErrreact(lock, ie, ire, iwe).data;
    ErrreactFields(lock, ie, ire, iwe);
    Pow2Values();
    assert ReadBytes(d, 4) == d;
    AndOne(d);
    assert Shr(d, 0) == d;
    BitOfIsBit(d, 1);
    BitOfIsBit(d, 4);
    BitOfIsBit(d, 8);
  }

  /** The one-byte read_errreact returns the lock, ie and ire that set_errreact wrote, and
      0 for iwe whatever was written. */
  lemma ErrreactOneByteRead(lock: bool, ie: bool, ire: bool, iwe: bool)
    ensures ReadErrreact(SetErrreact(lock, ie, ire, iwe).data) == (B(lock), B(ie), B(ire), 0)
  {
    var d := SetErrreact(lock, ie, ire, iwe).data;
    var b := SetErrreact(lock, ie, ire, false).data;
    ErrreactLowByte(lock, ie, ire, iwe);
    ErrreactLowBits(lock, ie, ire, false);
    ErrreactIweLost(d);
    AndOne(b);
    assert Shr(b, 0) == b;
    BitOfIsBit(b, 1);
    BitOfIsBit(b, 4);
  }

  /** The low byte of the word set_errreact writes is the word written with iwe clear. */
  lemma ErrreactLowByte(lock: bool, ie: bool, ire: bool, iwe: bool)
    ensures ReadBytes(SetErrreact(lock, ie, ire, iwe).data, 1) == SetErrreact(lock, ie, ire, false).data
  {
    var d := SetErrreact(lock, ie, ire, iwe).data;
    var b := SetErrreact(lock, ie, ire, false).data;
    Pow2Values();
    DivModUnique(d, 0x100, B(iwe), b);
  }

  /** The one-byte read_errreact never sees bit 8: its iwe is 0 whatever the register
      holds, so set_errreact(0, 0, 0, 1) reads back with iwe = 0. */
  lemma ErrreactIweLost(reg: nat)
    ensures ReadErrreact(reg).3 == 0
    ensures ReadErrreact(SetErrreact(false, false, false, true).data).3 == 0
  {
    Pow2Values();
    var b := ReadBytes(reg, 1);
    assert Shr(b, 8) == 0;
    assert ReadBytes(0x100, 1) == 0;
  }

  // ---------------------------------------------------------------------------
  // ERR_REQINFO and ERR_REQID

  /** read_err_reqinfo: one byte, split into (ip, ttype, etype). */
  function ReadErrReqinfo(reg: nat): (r: (nat, nat, nat))
    ensures r.0 <= 1 && r.1 <= 3 && r.2 <= 7
  {
    var b := ReadBytes(reg, 1);
    (And(b, 1), And(Shr(b, 1), 3), And(Shr(b, 4), 7))
  }

  /** Every ERR_REQINFO field lies in the low byte, so the one-byte read returns exactly
      the header's IP, TTYPE and ETYPE fields of the register. */
  lemma ErrReqinfoDecodes(reg: nat)
    ensures ReadErrReqinfo(reg) == (Extract(reg, BitField(Regs.ERR_REQINFO_IP_BIT)),
                                    Extract(reg, Regs.ERR_REQINFO_TTYPE_FIELD),
                                    Extract(reg, Regs.ERR_REQINFO_ETYPE_FIELD))
  {
    Regs.NarrowMaskWidths();
    Pow2Values();
    var b := ReadBytes(reg, 1);
    assert b == Low(reg, 8);
    ExtractBelow(reg, BitField(Regs.ERR_REQINFO_IP_BIT), 8);
    ExtractBelow(reg, Regs.ERR_REQINFO_TTYPE_FIELD, 8);
    ExtractBelow(reg, Regs.ERR_REQINFO_ETYPE_FIELD, 8);
    assert Shr(b, 0) == b;
  }

  /** read_err_reqid as written: one byte, split into (sid, eid) at bit 16. */
  function ReadErrReqid(reg: nat): (r: (nat, nat))
    ensures r.0 <= 0xffff && r.1 <= 0xffff
  {
    var b := ReadBytes(reg, 1);
    (And(b, 0xffff), And(Shr(b, 16), 0xffff))
  }

  /** read_err_reqid reading the whole four-byte register. */
  function ReadErrReqidWord(reg: nat): (r: (nat, nat))
    ensures r.0 <= 0xffff && r.1 <= 0xffff
  {
    var b := ReadBytes(reg, 4);
    (And(b, 0xffff), And(Shr(b, 16), 0xffff))
  }

  /** The four-byte read returns the header's SID and EID fields of any 32-bit register. */
  lemma ErrReqidDecodes(reg: nat)
    requires reg < 0x1_0000_0000
    ensures ReadErrReqidWord(reg) == (Extract(reg, Regs.ERR_REQID_SID_FIELD), Extract(reg, Regs.ERR_REQID_EID_FIELD))
  {
    Pow2Values();
    assert ReadBytes(reg, 4) == reg;
    assert Shr(reg, 0) == reg;
  }

  /** The one-byte read_err_reqid returns eid = 0 and only the low byte of sid: a
      register with SID 0x100 and EID 1 reads as (0, 0). */
  lemma ErrReqidTruncated(reg: nat)
    ensures ReadErrReqid(reg) == (reg % 0x100, 0)
    ensures ReadErrReqid(0x1_0100) == (0, 0)
    ensures ReadErrReqidWord(0x1_0100) == (0x100, 1)
  {
    ErrReqidOneByte(reg);
    ErrReqidOneByte(0x1_0100);
    ErrReqidWordExample();
  }

  lemma ErrReqidOneByte(reg: nat)
    ensures ReadErrReqid(reg) == (reg % 0x100, 0)
  {
    Pow2Values();
    var b := ReadBytes(reg, 1);
    AndLowMask(b, 16);
    LowBounds(b, 16);
    assert Shr(b, 16) == 0;
  }

  lemma ErrReqidWordExample()
    ensures ReadErrReqidWord(0x1_0100) == (0x100, 1)
  {
    Pow2Values();
    AndLowMask(0x1_0100, 16);
    AndLowMask(1, 16);
  }

  // ---------------------------------------------------------------------------
  // HWCFG0

  /** enable_iopmp writes 0x80000000 to HWCFG0. */
  const ENABLE_WORD: nat := 0x8000_0000

  function EnableIopmp(): (w: RegWrite)
    ensures w.offset == Regs.Offset(Regs.Hwcfg0) && w.bytes == 4
  {
    RegWrite(Regs.Offset(Regs.Hwcfg0), ENABLE_WORD, 4)
  }

  /** The enable word sets the header's ENABLE bit (31) and writes 0 to every other
      HWCFG0 field: MODEL, the ten flag bits and MD_NUM. */
  lemma EnableWordFields()
    ensures Bit(EnableIopmp().data, Regs.HWCFG0_ENABLE_BIT)
    ensures var fs := Regs.Fields(Regs.Hwcfg0);
      && fs[|fs| - 1] == BitField(Regs.HWCFG0_ENABLE_BIT)
      && forall k :: 0 <= k < |fs| - 1 ==> Extract(EnableIopmp().data, fs[k]) == 0
  {
    Pow2Values();
    assert Shr(ENABLE_WORD, 31) == 1;
    var fs := Regs.Fields(Regs.Hwcfg0);
    forall k | 0 <= k < |fs| - 1
      ensures Extract(ENABLE_WORD, fs[k]) == 0
    {
      BelowEnableBit(fs[k]);
    }
  }

  /** A field that ends at or below bit 31 of 0x80000000 holds 0. */
  lemma BelowEnableBit(f: Field)
    requires f in Regs.Fields(Regs.Hwcfg0)[..12]
    ensures Extract(ENABLE_WORD, f) == 0
  {
    Regs.NarrowMaskWidths();
    Pow2Values();
    ExtractBelow(ENABLE_WORD, f, 31);
    assert Low(ENABLE_WORD, 31) == 0;
    assert Shr(0, f.index) == 0;
  }
}
