/**
 * The single-instance register map that the register-map scripts generate for iopmp:
 * the same base block as the rv_iopmp map, followed by one MDCFG register, one
 * SRCMD_EN/ENH pair and one ENTRY_ADDR/ADDRH/CFG triple. Its constants are declared
 * here as that header writes them and then compared with the unrolled map.
 */
module IopmpRegs {
  import opened Bits
  import Rv = RvIopmpRegs

  const PARAM_REG_WIDTH: nat := 32

  const VERSION_VENDOR_FIELD := Field(0xffffff, 0)
  const VERSION_SPECVER_FIELD := Field(0xff, 24)

  const HWCFG0_MODEL_FIELD := Field(0xf, 0)
  const HWCFG0_TOR_EN_BIT: nat := 4
  const HWCFG0_SPS_EN_BIT: nat := 5
  const HWCFG0_USER_CFG_EN_BIT: nat := 6
  const HWCFG0_PRIENT_PROG_BIT: nat := 7
  const HWCFG0_SID_TRANSL_EN_BIT: nat := 8
  const HWCFG0_SID_TRANSL_PROG_BIT: nat := 9
  const HWCFG0_CHK_X_BIT: nat := 10
  const HWCFG0_NO_X_BIT: nat := 11
  const HWCFG0_NO_W_BIT: nat := 12
  const HWCFG0_STALL_EN_BIT: nat := 13
  const HWCFG0_MD_NUM_FIELD := Field(0x7f, 24)
  const HWCFG0_ENABLE_BIT: nat := 31

  const HWCFG1_SID_NUM_FIELD := Field(0xffff, 0)
  const HWCFG1_ENTRY_NUM_FIELD := Field(0xffff, 16)

  const HWCFG2_PRIO_ENTRY_FIELD := Field(0xffff, 0)
  const HWCFG2_SID_TRANSL_FIELD := Field(0xffff, 16)

  const ERRREACT_L_BIT: nat := 0
  const ERRREACT_IE_BIT: nat := 1
  const ERRREACT_IRE_BIT: nat := 4
  const ERRREACT_RRE_FIELD := Field(0x7, 5)
  const ERRREACT_IWE_BIT: nat := 8
  const ERRREACT_RWE_FIELD := Field(0x7, 9)
  const ERRREACT_PEE_BIT: nat := 28
  const ERRREACT_RPE_FIELD := Field(0x7, 29)

  const MDCFGLCK_L_BIT: nat := 0
  const MDCFGLCK_F_FIELD := Field(0x7f, 1)

  const ENTRYLCK_L_BIT: nat := 0
  const ENTRYLCK_F_FIELD := Field(0xffff, 1)

  const ERR_REQINFO_IP_BIT: nat := 0
  const ERR_REQINFO_TTYPE_FIELD := Field(0x3, 1)
  const ERR_REQINFO_ETYPE_FIELD := Field(0x7, 4)

  const ERR_REQID_SID_FIELD := Field(0xffff, 0)
  const ERR_REQID_EID_FIELD := Field(0xffff, 16)

  /** The single MDCFG register declares only its T field. */
  const MDCFG_T_FIELD := Field(0xffff, 0)

  const SRCMD_EN_L_BIT: nat := 0
  const SRCMD_EN_MD_FIELD := Field(0x7fffffff, 1)

  const ENTRY_CFG_R_BIT: nat := 0
  const ENTRY_CFG_W_BIT: nat := 1
  const ENTRY_CFG_X_BIT: nat := 2
  const ENTRY_CFG_A_FIELD := Field(0x3, 3)

  datatype Reg =
    | Version | Imp | Hwcfg0 | Hwcfg1 | Hwcfg2 | EntryOffset | Errreact
    | Mdcfglck | Entrylck | ErrReqinfo | ErrReqid | ErrReqaddr | ErrReqaddrh
    | Mdcfg | SrcmdEn | SrcmdEnh | EntryAddr | EntryAddrh | EntryCfg

  function Offset(r: Reg): nat
  {
    match r
    case Version => 0x0
    case Imp => 0x4
    case Hwcfg0 => 0x8
    case Hwcfg1 => 0xc
    case Hwcfg2 => 0x10
    case EntryOffset => 0x14
    case Errreact => 0x18
    case Mdcfglck => 0x48
    case Entrylck => 0x4c
    case ErrReqinfo => 0x60
    case ErrReqid => 0x64
    case ErrReqaddr => 0x68
    case ErrReqaddrh => 0x6c
    case Mdcfg => 0x800
    case SrcmdEn => 0x1000
    case SrcmdEnh => 0x1004
    case EntryAddr => 0x2000
    case EntryAddrh => 0x2004
    case EntryCfg => 0x2008
  }

  /** The field descriptors this header declares for a register, from bit 0 upwards. */
  function Fields(r: Reg): seq<Field>
  {
    match r
    case Version => [VERSION_VENDOR_FIELD, VERSION_SPECVER_FIELD]
    case Hwcfg0 =>
      [HWCFG0_MODEL_FIELD, BitField(HWCFG0_TOR_EN_BIT), BitField(HWCFG0_SPS_EN_BIT),
       BitField(HWCFG0_USER_CFG_EN_BIT), BitField(HWCFG0_PRIENT_PROG_BIT),
       BitField(HWCFG0_SID_TRANSL_EN_BIT), BitField(HWCFG0_SID_TRANSL_PROG_BIT),
       BitField(HWCFG0_CHK_X_BIT), BitField(HWCFG0_NO_X_BIT), BitField(HWCFG0_NO_W_BIT),
       BitField(HWCFG0_STALL_EN_BIT), HWCFG0_MD_NUM_FIELD, BitField(HWCFG0_ENABLE_BIT)]
    case Hwcfg1 => [HWCFG1_SID_NUM_FIELD, HWCFG1_ENTRY_NUM_FIELD]
    case Hwcfg2 => [HWCFG2_PRIO_ENTRY_FIELD, HWCFG2_SID_TRANSL_FIELD]
    case Errreact =>
      [BitField(ERRREACT_L_BIT), BitField(ERRREACT_IE_BIT), BitField(ERRREACT_IRE_BIT),
       ERRREACT_RRE_FIELD, BitField(ERRREACT_IWE_BIT), ERRREACT_RWE_FIELD,
       BitField(ERRREACT_PEE_BIT), ERRREACT_RPE_FIELD]
    case Mdcfglck => [BitField(MDCFGLCK_L_BIT), MDCFGLCK_F_FIELD]
    case Entrylck => [BitField(ENTRYLCK_L_BIT), ENTRYLCK_F_FIELD]
    case ErrReqinfo => [BitField(ERR_REQINFO_IP_BIT), ERR_REQINFO_TTYPE_FIELD, ERR_REQINFO_ETYPE_FIELD]
    case ErrReqid => [ERR_REQID_SID_FIELD, ERR_REQID_EID_FIELD]
    case Mdcfg => [MDCFG_T_FIELD]
    case SrcmdEn => [BitField(SRCMD_EN_L_BIT), SRCMD_EN_MD_FIELD]
    case EntryCfg =>
      [BitField(ENTRY_CFG_R_BIT), BitField(ENTRY_CFG_W_BIT), BitField(ENTRY_CFG_X_BIT), ENTRY_CFG_A_FIELD]
    case _ => []
  }

  /** The register of the unrolled map a register of this map stands for: the base block
      maps to itself, the tables to their instance 0. */
  function ToRv(r: Reg): Rv.Reg
  {
    match r
    case Version => Rv.Version
    case Imp => Rv.Imp
    case Hwcfg0 => Rv.Hwcfg0
    case Hwcfg1 => Rv.Hwcfg1
    case Hwcfg2 => Rv.Hwcfg2
    case EntryOffset => Rv.EntryOffset
    case Errreact => Rv.Errreact
    case Mdcfglck => Rv.Mdcfglck
    case Entrylck => Rv.Entrylck
    case ErrReqinfo => Rv.ErrReqinfo
    case ErrReqid => Rv.ErrReqid
    case ErrReqaddr => Rv.ErrReqaddr
    case ErrReqaddrh => Rv.ErrReqaddrh
    case Mdcfg => Rv.Mdcfg(0)
    case SrcmdEn => Rv.SrcmdEn(0)
    case SrcmdEnh => Rv.SrcmdEnh(0)
    case EntryAddr => Rv.EntryAddr(0)
    case EntryAddrh => Rv.EntryAddrh(0)
    case EntryCfg => Rv.EntryCfg(0)
  }

  /** Both maps place every register at the same offset: the base block from VERSION at
      0x0 to ERR_REQADDRH at 0x6c, and the single table registers at instance 0 of the
      unrolled tables. The field descriptors agree too, except that the single MDCFG
      declares only T and not RES. */
  lemma AgreesWithUnrolledMap(r: Reg)
    ensures Rv.Declared(ToRv(r))
    ensures Offset(r) == Rv.Offset(ToRv(r))
    ensures r != Mdcfg ==> Fields(r) == Rv.Fields(ToRv(r))
    ensures Fields(Mdcfg) == Rv.Fields(Rv.Mdcfg(0))[..1]
  {
  }

  /** No two registers of this map share an offset. */
  lemma OffsetInjective(r: Reg, s: Reg)
    requires Offset(r) == Offset(s)
    ensures r == s
  {
    AgreesWithUnrolledMap(r);
    AgreesWithUnrolledMap(s);
    Rv.OffsetInjective(ToRv(r), ToRv(s));
  }

  /** Every field fits in PARAM_REG_WIDTH bits, (mask << index) < 2^32, and the fields of
      one register are pairwise disjoint. */
  lemma FieldsWellFormed(r: Reg)
    ensures WellFormed(Fields(r), PARAM_REG_WIDTH)
    ensures forall f :: f in Fields(r) ==> Shl(f.mask, f.index) < 0x1_0000_0000
  {
    if r == Mdcfg {
      Rv.WideMaskWidths();
      Pow2Values();
      FitsShifted(MDCFG_T_FIELD, PARAM_REG_WIDTH);
    } else {
      var fs := Rv.Fields(ToRv(r));
      AgreesWithUnrolledMap(r);
      assert Fields(r) == fs;
      Rv.FieldsWellFormed(ToRv(r));
      Rv.FieldsBelowRegWidth(ToRv(r));
    }
  }

  /** The lock bit and the MD field of SRCMD_EN, and the SID and EID fields of
      ERR_REQID, each cover their 32-bit word exactly; R, W, X and A of ENTRY_CFG
      fill exactly its low five bits. */
  lemma FieldsTileWord()
    ensures Tiles(Fields(SrcmdEn), PARAM_REG_WIDTH)
    ensures Tiles(Fields(ErrReqid), PARAM_REG_WIDTH)
    ensures Tiles(Fields(EntryCfg), 5)
  {
    AgreesWithUnrolledMap(SrcmdEn);
    AgreesWithUnrolledMap(ErrReqid);
    AgreesWithUnrolledMap(EntryCfg);
    Rv.FieldsTileWord();
    Rv.EntryCfgLowFiveBits();
    assert Tiles(Rv.Fields(Rv.SrcmdEn(0)), PARAM_REG_WIDTH);
    assert Tiles(Rv.Fields(Rv.EntryCfg(0)), 5);
  }
}
