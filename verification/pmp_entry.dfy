/**
 * How the testbench programs one protection entry: the ENTRY_CFG word made of the
 * address-matching mode and the access bits, and the ENTRY_ADDR/ENTRY_ADDRH pair
 * holding a 64-bit address shifted right by two, for the TOR, OFF and NAPOT/NA4 modes
 * of section 3.7 (Physical Memory Protection) of the RISC-V Privileged Architecture.
 */
module PmpEntry {
  import opened Bits
  import opened Wrappers
  import opened TbBus
  import Regs = RvIopmpRegs

  /** Entries the testbench addresses (IOPMP_ENTRIES); it equals the header's table size. */
  const IOPMP_ENTRIES: nat := 32

  /** The address-matching modes of the A field, as two-bit values. */
  datatype PmpMode = Off | Tor | Na4 | Napot
  {
    function Value(): nat
    {
      match this
      case Off => 0
      case Tor => 1
      case Na4 => 2
      case Napot => 3
    }
  }

  function ModeOf(v: nat): PmpMode
    requires v < 4
  {
    if v == 0 then Off else if v == 1 then Tor else if v == 2 then Na4 else Napot
  }

  /** A three-bit access bitarray, most significant bit first: execute, write, read. */
  datatype Access = Access(x: bool, w: bool, r: bool)
  {
    function Value(): nat
    {
      (if x then 4 else 0) + (if w then 2 else 0) + (if r then 1 else 0)
    }
  }

  const ACCESS_NONE := Access(false, false, false)
  const ACCESS_READ := Access(false, false, true)
  const ACCESS_WRITE := Access(false, true, false)
  const ACCESS_EXEC := Access(true, false, false)

  /** The ENTRY_CFG word: the mode bitarray followed by the access bitarray. */
  function ConfigWord(mode: PmpMode, access: Access): nat
  {
    mode.Value() * 8 + access.Value()
  }

  /** Reads an ENTRY_CFG word through the header's field descriptors. */
  function DecodeConfig(word: nat): (PmpMode, Access)
  {
    (ModeOf(Extract(word, Regs.ENTRY_CFG_A_FIELD)),
     Access(Bit(word, Regs.ENTRY_CFG_X_BIT), Bit(word, Regs.ENTRY_CFG_W_BIT), Bit(word, Regs.ENTRY_CFG_R_BIT)))
  }

  /** The configuration word lies in the low five bits and the header's A, X, W and R
      fields give back the mode and the access it was built from. */
  lemma ConfigRoundTrip(mode: PmpMode, access: Access)
    ensures ConfigWord(mode, access) < 32
    ensures DecodeConfig(ConfigWord(mode, access)) == (mode, access)
  {
    ConfigModeRoundTrip(mode, access);
    ConfigAccessRoundTrip(mode, access);
  }

  lemma ConfigModeRoundTrip(mode: PmpMode, access: Access)
    ensures Extract(ConfigWord(mode, access), Regs.ENTRY_CFG_A_FIELD) == mode.Value()
  {
    var word, m, a := ConfigWord(mode, access), mode.Value(), access.Value();
    Pow2Small();
    MaskWidthOfLowMask(2);
    ShrLowOfSum(m, a, 3);
    ExtractShr(word, Regs.ENTRY_CFG_A_FIELD);
    LowBounds(m, 2);
  }

  lemma ConfigAccessRoundTrip(mode: PmpMode, access: Access)
    ensures ConfigWord(mode, access) < 32
    ensures Bit(ConfigWord(mode, access), Regs.ENTRY_CFG_R_BIT) == access.r
    ensures Bit(ConfigWord(mode, access), Regs.ENTRY_CFG_W_BIT) == access.w
    ensures Bit(ConfigWord(mode, access), Regs.ENTRY_CFG_X_BIT) == access.x
  {
    var word, m, a := ConfigWord(mode, access), mode.Value(), access.Value();
    Pow2Small();
    assert Shr(word, 1) == m * 4 + a / 2;
    assert Shr(word, 2) == m * 2 + a / 4;
  }

  /** The writes programming entry n with an address word and a configuration: ADDR
      and ADDRH carry the low and high halves of the word, CFG decodes to the mode and
      the access, all as four-byte writes to the header's offsets for entry n. */
  predicate EntryProgrammed(ws: seq<RegWrite>, n: nat, addrWord: nat, mode: PmpMode, access: Access)
  {
    |ws| == 3
    && ws[0].offset == Regs.Offset(Regs.EntryAddr(n))
    && ws[1].offset == Regs.Offset(Regs.EntryAddrh(n))
    && ws[2].offset == Regs.Offset(Regs.EntryCfg(n))
    && ws[0].bytes == ws[1].bytes == ws[2].bytes == 4
    && ws[0].data < 0x1_0000_0000 && ws[1].data < 0x1_0000_0000
    && ws[1].data * 0x1_0000_0000 + ws[0].data == addrWord
    && DecodeConfig(ws[2].data) == (mode, access)
  }

  /** set_entry_config: one write of the configuration word to ENTRY_CFG n. */
  function SetEntryConfig(access: Access, mode: PmpMode, entryNo: int): (r: Result<seq<RegWrite>, TbError>)
    ensures r.Ok? <==> 0 <= entryNo < IOPMP_ENTRIES
    ensures r.Err? ==> r.error == KeyError
    ensures r.Ok? ==>
      && |r.value| == 1 && r.value[0].bytes == 4
      && r.value[0].offset == Regs.Offset(Regs.EntryCfg(entryNo))
      && DecodeConfig(r.value[0].data) == (mode, access)
  {
    if !(0 <= entryNo < IOPMP_ENTRIES) then Err(KeyError)
    else
      ConfigRoundTrip(mode, access);
      Ok([RegWrite(Regs.EntryCfgOffset(entryNo), ConfigWord(mode, access), 4)])
  }

  /** The three writes for a 64-bit address value v: v >> 2 split into ADDR and ADDRH,
      then the configuration word. */
  function EntryWrites(v: nat, mode: PmpMode, access: Access, entryNo: nat): (ws: seq<RegWrite>)
    requires v < 0x1_0000_0000_0000_0000
    ensures EntryProgrammed(ws, entryNo, v / 4, mode, access)
  {
    var word := v / 4;
    ConfigRoundTrip(mode, access);
    [RegWrite(Regs.EntryAddrOffset(entryNo), Lo32(word), 4),
     RegWrite(Regs.EntryAddrhOffset(entryNo), Hi32(word), 4),
     RegWrite(Regs.EntryCfgOffset(entryNo), ConfigWord(mode, access), 4)]
  }

  /** set_entry_tor and set_entry_off: int2ba(addr, 64) raises unless 0 <= addr < 2^64;
      the offset lookups raise for an entry number the header does not declare. */
  function SetEntryShifted(addr: int, mode: PmpMode, access: Access, entryNo: int): (r: Result<seq<RegWrite>, TbError>)
    ensures r.Ok? <==> 0 <= addr < 0x1_0000_0000_0000_0000 && 0 <= entryNo < IOPMP_ENTRIES
    ensures r.Err? ==> (r.error == OverflowError <==> !(0 <= addr < 0x1_0000_0000_0000_0000))
    ensures r.Err? ==> r.error in {OverflowError, KeyError}
    ensures r.Ok? ==> EntryProgrammed(r.value, entryNo, addr / 4, mode, access)
  {
    if !(0 <= addr < 0x1_0000_0000_0000_0000) then Err(OverflowError)
    else if !(0 <= entryNo < IOPMP_ENTRIES) then Err(KeyError)
    else Ok(EntryWrites(addr, mode, access, entryNo))
  }

  function SetEntryTor(addr: int, access: Access, entryNo: int): (r: Result<seq<RegWrite>, TbError>)
    ensures r.Ok? <==> 0 <= addr < 0x1_0000_0000_0000_0000 && 0 <= entryNo < IOPMP_ENTRIES
    ensures r.Ok? ==> EntryProgrammed(r.value, entryNo, addr / 4, Tor, access)
  {
    SetEntryShifted(addr, Tor, access, entryNo)
  }

  function SetEntryOff(addr: int, access: Access, entryNo: int): (r: Result<seq<RegWrite>, TbError>)
    ensures r.Ok? <==> 0 <= addr < 0x1_0000_0000_0000_0000 && 0 <= entryNo < IOPMP_ENTRIES
    ensures r.Ok? ==> EntryProgrammed(r.value, entryNo, addr / 4, Off, access)
  {
    SetEntryShifted(addr, Off, access, entryNo)
  }

  // ---------------------------------------------------------------------------
  // NAPOT and NA4

  /** int(base + (length/2 - 1)): true division gives a float, int() truncates it toward
      zero. Written over the integers as the truncated half of 2*base + length - 2. */
  function NapotValue(base: int, length: int): (v: int)
    ensures length % 2 == 0 ==> v == base + length / 2 - 1
  {
    var n := 2 * base + length - 2;
    if n >= 0 then n / 2 else -((-n) / 2)
  }

  function NapotMode(length: int): PmpMode
  {
    if length < 8 then Na4 else Napot
  }

  /** set_entry_napot. */
  function SetEntryNapot(base: int, length: int, access: Access, entryNo: int): (r: Result<seq<RegWrite>, TbError>)
    ensures r.Ok? <==> 0 <= NapotValue(base, length) < 0x1_0000_0000_0000_0000 && 0 <= entryNo < IOPMP_ENTRIES
    ensures r.Err? ==> (r.error == OverflowError <==> !(0 <= NapotValue(base, length) < 0x1_0000_0000_0000_0000))
    ensures r.Ok? ==> EntryProgrammed(r.value, entryNo, NapotValue(base, length) / 4, NapotMode(length), access)
  {
    SetEntryShifted(NapotValue(base, length), NapotMode(length), access, entryNo)
  }

  /** Number of consecutive one bits at the bottom of w. */
  function TrailingOnes(w: nat): nat
  {
    if w % 2 == 1 then 1 + TrailingOnes(w / 2) else 0
  }

  /** The region a NAPOT address word denotes (RISC-V PMP): t trailing ones stand for
      2^(t+3) bytes; the bits above the zero that ends them, times 2^(t+3), are the base. */
  function NapotSize(w: nat): nat
  {
    Pow2(TrailingOnes(w) + 3)
  }

  function NapotBase(w: nat): nat
  {
    Shr(w, TrailingOnes(w) + 1) * Pow2(TrailingOnes(w) + 3)
  }

  /** A word of j ones on top of q shifted past one more zero has exactly j trailing ones
      and q above them. */
  lemma {:induction false} TrailingOnesOf(q: nat, j: nat)
    ensures TrailingOnes(q * Pow2(j + 1) + Pow2(j) - 1) == j
    ensures Shr(q * Pow2(j + 1) + Pow2(j) - 1, j + 1) == q
  {
    var w := q * Pow2(j + 1) + Pow2(j) - 1;
    Pow2Small();
    if j == 0 {
      assert w == 2 * q;
      assert Shr(w, 1) == w / 2;
    } else {
      var p := Pow2(j - 1);
      var w' := q * Pow2(j) + p - 1;
      MulTwo(q, Pow2(j));
      MulTwo(q, p);
      assert w == 2 * w' + 1;
      assert Shr(w, 1) == w';
      TrailingOnesOf(q, j - 1);
      ShrShr(w, 1, j);
    }
  }

  lemma MulTwo(q: nat, p: nat)
    ensures q * (2 * p) == 2 * (q * p)
  {
  }

  /** The NAPOT address word for the 2^(j+3) bytes at q * 2^(j+3): j ones on top of q
      shifted past one more zero. */
  lemma NapotWord(q: nat, j: nat, base: nat, len: nat) returns (w: nat)
    requires len == Pow2(j + 3) && base == q * len
    ensures w == q * Pow2(j + 1) + Pow2(j) - 1 && NapotValue(base, len) / 4 == w
  {
    var p := Pow2(j);
    Pow2Small();
    Pow2Add(j, 3);
    Pow2Add(j, 1);
    var qp := q * p;
    assert base == 8 * qp;
    assert q * Pow2(j + 1) == 2 * qp;
    var m := 2 * qp + p;
    assert NapotValue(base, len) == 4 * m - 1;
    DivModUnique(4 * m - 1, 4, m - 1, 3);
    w := m - 1;
  }

  /** Under the condition the testbench leaves as a TODO (the length a power of two of at
      least 8 and the base aligned to it), the word written has log2(length) - 3
      trailing ones and decodes back to exactly the region (base, length) in NAPOT mode. */
  lemma NapotRoundTrip(base: nat, k: nat, access: Access, entryNo: nat)
    requires 3 <= k && base % Pow2(k) == 0 && entryNo < IOPMP_ENTRIES
    requires base + Pow2(k) / 2 <= 0x1_0000_0000_0000_0000
    ensures var r := SetEntryNapot(base, Pow2(k), access, entryNo);
      r.Ok? && DecodeConfig(r.value[2].data) == (Napot, access)
      && var w := r.value[1].data * 0x1_0000_0000 + r.value[0].data;
      TrailingOnes(w) == k - 3 && NapotSize(w) == Pow2(k) && NapotBase(w) == base
  {
    var len := Pow2(k);
    NapotWordFacts(base, k);
    var r := SetEntryNapot(base, len, access, entryNo);
    var v := NapotValue(base, len);
    assert r.Ok? && EntryProgrammed(r.value, entryNo, v / 4, Napot, access);
    var w := r.value[1].data * 0x1_0000_0000 + r.value[0].data;
    assert w == v / 4;
  }

  lemma AlignedQuotient(base: nat, len: nat) returns (q: nat)
    requires len > 0 && base % len == 0
    ensures base == q * len
  {
    q := base / len;
    DivExact(base, len);
  }

  /** The value set_entry_napot computes for an aligned power-of-two region is in range,
      selects NAPOT, and its word encodes the region. */
  lemma NapotWordFacts(base: nat, k: nat)
    requires 3 <= k && base % Pow2(k) == 0 && base + Pow2(k) / 2 <= 0x1_0000_0000_0000_0000
    ensures 0 <= NapotValue(base, Pow2(k)) < 0x1_0000_0000_0000_0000
    ensures NapotMode(Pow2(k)) == Napot
    ensures var w := NapotValue(base, Pow2(k)) / 4;
      TrailingOnes(w) == k - 3 && NapotSize(w) == Pow2(k) && NapotBase(w) == base
  {
    var q := AlignedQuotient(base, Pow2(k));
    var j: nat := k - 3;
    assert j + 3 == k;
    Pow2Monotone(3, k);
    Pow2Small();
    assert Pow2(k) == 2 * Pow2(k - 1);
    var w := NapotWord(q, j, base, Pow2(k));
    NapotWordDecodes(q, j, w);
  }

  /** The word of j ones on top of q decodes to the 2^(j+3) bytes at q * 2^(j+3). */
  lemma NapotWordDecodes(q: nat, j: nat, w: nat)
    requires w == q * Pow2(j + 1) + Pow2(j) - 1
    ensures TrailingOnes(w) == j && NapotSize(w) == Pow2(j + 3) && NapotBase(w) == q * Pow2(j + 3)
  {
    TrailingOnesOf(q, j);
  }

  /** NA4: a four-byte region at a four-byte aligned base is written as the base >> 2 in
      the NA4 mode. */
  lemma Na4RoundTrip(base: nat, access: Access, entryNo: nat)
    requires base % 4 == 0 && base < 0x1_0000_0000_0000_0000 && entryNo < IOPMP_ENTRIES
    ensures var r := SetEntryNapot(base, 4, access, entryNo);
      r.Ok? && r.value[1].data * 0x1_0000_0000 + r.value[0].data == base / 4
      && DecodeConfig(r.value[2].data) == (Na4, access)
  {
  }

  /** clean_entry: NA4 with no access over the four bytes at 0 zeroes ADDR and ADDRH
      and leaves the configuration word 0b10000. */
  lemma CleanEntryWrites(entryNo: nat)
    requires entryNo < IOPMP_ENTRIES
    ensures var r := SetEntryNapot(0, 4, ACCESS_NONE, entryNo);
      r.Ok? && r.value[0].data == 0 && r.value[1].data == 0 && r.value[2].data == 16
  {
    assert NapotValue(0, 4) == 1;
    var ws := EntryWrites(1, Na4, ACCESS_NONE, entryNo);
    assert SetEntryNapot(0, 4, ACCESS_NONE, entryNo) == Ok(ws);
    assert ws[0].data == Lo32(0) == 0 && ws[1].data == Hi32(0) == 0;
    assert ws[2].data == ConfigWord(Na4, ACCESS_NONE) == 16;
  }
}
