/**
 * The lock registers MDCFGLCK and ENTRYLCK: how the testbench packs and unpacks them,
 * and a reference machine for the rules its locking test asserts. Each register holds
 * a lock bit L (bit 0) and a count F above it; F only grows, L once set stays set and
 * freezes the register, and the MDCFG/ENTRY registers below F ignore writes.
 */
module LockRegs {
  import opened Bits
  import opened Wrappers
  import opened TbBus
  import Regs = RvIopmpRegs
  import PmpEntry
  import MdRanges

  /** The one-bit bitarray int2ba(0) or int2ba(1) as an integer. */
  function LockBit(lock: bool): nat
  {
    if lock then 1 else 0
  }

  // ---------------------------------------------------------------------------
  // Packing and unpacking

  /** set_mdcfglck: int2ba(f, 7) + lock, written as one byte. */
  function SetMdcfglck(f: int, lock: bool): (r: Result<RegWrite, TbError>)
    ensures r.Ok? <==> 0 <= f < 0x80
    ensures r.Err? ==> r.error == OverflowError
    ensures r.Ok? ==> r.value.offset == Regs.Offset(Regs.Mdcfglck) && r.value.bytes == 1
  {
    if 0 <= f < 0x80 then Ok(RegWrite(Regs.Offset(Regs.Mdcfglck), 2 * f + LockBit(lock), 1))
    else Err(OverflowError)
  }

  /** set_entrylck: int2ba(f, 16) + lock, written as four bytes. */
  function SetEntrylck(f: int, lock: bool): (r: Result<RegWrite, TbError>)
    ensures r.Ok? <==> 0 <= f < 0x1_0000
    ensures r.Err? ==> r.error == OverflowError
    ensures r.Ok? ==> r.value.offset == Regs.Offset(Regs.Entrylck) && r.value.bytes == 4
  {
    if 0 <= f < 0x1_0000 then Ok(RegWrite(Regs.Offset(Regs.Entrylck), 2 * f + LockBit(lock), 4))
    else Err(OverflowError)
  }

  /** (b >> 1, b & 0x1) of the integer read: the count above bit 0 and the bit itself. */
  function SplitLock(b: nat): (r: (nat, nat))
    ensures 2 * r.0 + r.1 == b && r.1 <= 1
  {
    AndOne(b);
    assert Pow2(1) == 2;
    (Shr(b, 1), And(b, 1))
  }

  /** read_mdcfglck: one byte of the register, so F comes back below 0x80. */
  function ReadMdcfglck(reg: nat): (r: (nat, nat))
    ensures 2 * r.0 + r.1 == reg % 0x100 && r.1 <= 1
  {
    Pow2Values();
    SplitLock(ReadBytes(reg, 1))
  }

  /** read_entrylck as written: one byte of the register, although F reaches bit 16. */
  function ReadEntrylck(reg: nat): (r: (nat, nat))
    ensures 2 * r.0 + r.1 == reg % 0x100 && r.1 <= 1
  {
    Pow2Values();
    SplitLock(ReadBytes(reg, 1))
  }

  /** read_entrylck reading the whole four-byte register. */
  function ReadEntrylckWord(reg: nat): (r: (nat, nat))
    ensures 2 * r.0 + r.1 == reg % 0x1_0000_0000 && r.1 <= 1
  {
    Pow2Values();
    SplitLock(ReadBytes(reg, 4))
  }

  /** A word 2f + l splits back into f and l, and the header's fields L and F (mask m,
      index 1) hold l and f. */
  lemma LockWordFields(f: nat, lock: bool, m: nat, k: nat)
    requires m == Pow2(k) - 1 && f <= m
    ensures SplitLock(2 * f + LockBit(lock)) == (f, LockBit(lock))
    ensures Extract(2 * f + LockBit(lock), Field(m, 1)) == f
    ensures Bit(2 * f + LockBit(lock), 0) == lock
  {
    var w := 2 * f + LockBit(lock);
    Pow2Small();
    AndOne(w);
    assert Shr(w, 1) == f;
    assert Shr(w, 0) == w;
    AndLowMask(f, k);
    LowBounds(f, k);
  }

  /** What set_mdcfglck writes, read_mdcfglck reads back, for every f the write accepts. */
  lemma MdcfglckRoundTrip(f: int, lock: bool)
    requires 0 <= f < 0x80
    ensures var r := SetMdcfglck(f, lock);
      && r.Ok? && r.value.data < 0x100
      && ReadMdcfglck(r.value.data) == (f, LockBit(lock))
      && Extract(r.value.data, Regs.MDCFGLCK_F_FIELD) == f
      && Bit(r.value.data, Regs.MDCFGLCK_L_BIT) == lock
  {
    Pow2Values();
    LockWordFields(f, lock, 0x7f, 7);
  }

  /** The one-byte read_entrylck returns what set_entrylck wrote only while f < 128. */
  lemma EntrylckRoundTripBelow128(f: int, lock: bool)
    requires 0 <= f < 0x80
    ensures var r := SetEntrylck(f, lock);
      r.Ok? && ReadEntrylck(r.value.data) == (f, LockBit(lock))
  {
    Pow2Values();
    LockWordFields(f, lock, 0xffff, 16);
  }

  /** From f = 128 on, bit 8 of the word is F's top bit and the one-byte read loses it:
      set_entrylck(128, 0) reads back as (0, 0). */
  lemma EntrylckReadTruncates()
    ensures var r := SetEntrylck(0x80, false);
      r.Ok? && ReadEntrylck(r.value.data) == (0, 0) && ReadEntrylck(r.value.data).0 != 0x80
  {
    Pow2Values();
    assert ReadBytes(0x100, 1) == 0;
    AndOne(0);
  }

  /** Reading all four bytes returns what set_entrylck wrote, for every f it accepts. */
  lemma EntrylckRoundTrip(f: int, lock: bool)
    requires 0 <= f < 0x1_0000
    ensures var r := SetEntrylck(f, lock);
      && r.Ok? && r.value.data < 0x1_0000_0000
      && ReadEntrylckWord(r.value.data) == (f, LockBit(lock))
      && Extract(r.value.data, Regs.ENTRYLCK_F_FIELD) == f
      && Bit(r.value.data, Regs.ENTRYLCK_L_BIT) == lock
  {
    Pow2Values();
    LockWordFields(f, lock, 0xffff, 16);
  }

  // ---------------------------------------------------------------------------
  // Reference machine

  /** The content of MDCFGLCK or ENTRYLCK. */
  datatype Lock = Lock(f: nat, l: bool)
  {
    /** The register word: L in bit 0, F above it. */
    function Word(): nat
    {
      2 * f + LockBit(l)
    }
  }

  /** One write of (f, l): ignored once locked; otherwise F takes the larger of the old
      and the written count and L takes the written bit. */
  function LockNext(s: Lock, f: nat, l: bool): (n: Lock)
    ensures s.l ==> n == s
    ensures !s.l ==> n.l == l && n.f >= f && n.f >= s.f && (n.f == f || n.f == s.f)
  {
    if s.l then s else Lock(if f > s.f then f else s.f, l)
  }

  /** A sequence of writes (f, l), in order. */
  function LockRun(s: Lock, ws: seq<(nat, bool)>): Lock
    decreases |ws|
  {
    if |ws| == 0 then s else LockRun(LockNext(s, ws[0].0, ws[0].1), ws[1..])
  }

  /** Over any sequence of writes F never decreases, L never clears, and a locked
      register does not change at all. */
  lemma {:induction false} LockRunMonotone(s: Lock, ws: seq<(nat, bool)>)
    ensures LockRun(s, ws).f >= s.f
    ensures s.l ==> LockRun(s, ws) == s
    decreases |ws|
  {
    if |ws| > 0 {
      LockRunMonotone(LockNext(s, ws[0].0, ws[0].1), ws[1..]);
    }
  }

  /** Once some write of the sequence sets L, the register ends locked with the F it had
      right after that write. */
  lemma {:induction false} LockRunFreezes(s: Lock, ws: seq<(nat, bool)>, k: nat)
    requires k < |ws| && ws[k].1
    ensures LockRun(s, ws).l
    ensures LockRun(s, ws).f == LockRun(s, ws[..k + 1]).f
    decreases k
  {
    if k == 0 {
      var s1 := LockNext(s, ws[0].0, ws[0].1);
      assert s1.l;
      LockRunMonotone(s1, ws[1..]);
      assert ws[..1][1..] == [];
    } else {
      var s1 := LockNext(s, ws[0].0, ws[0].1);
      LockRunFreezes(s1, ws[1..], k - 1);
      assert ws[..k + 1][1..] == ws[1..][..k];
    }
  }

  /** The ENTRY_j words. */
  datatype EntryWords = EntryWords(addr: nat, addrh: nat, cfg: nat)

  /** The register file of the lock rules: both lock registers, the MDCFG table and the
      entry table. */
  class LockModel {
    var mdcfglck: Lock
    var entrylck: Lock
    var mdcfg: seq<nat>
    var entries: seq<EntryWords>

    /** Table sizes of the map, and F never wider than its field. */
    predicate Valid()
      reads this
    {
      && |mdcfg| == Regs.MDCFG_COUNT && |entries| == Regs.ENTRY_COUNT
      && mdcfglck.f <= Regs.MDCFGLCK_F_FIELD.mask && entrylck.f <= Regs.ENTRYLCK_F_FIELD.mask
    }

    /** After reset every register reads 0. */
    constructor ()
      ensures Valid()
      ensures mdcfglck == Lock(0, false) && entrylck == Lock(0, false)
      ensures mdcfg == seq(Regs.MDCFG_COUNT, _ => 0)
      ensures entries == seq(Regs.ENTRY_COUNT, _ => EntryWords(0, 0, 0))
    {
      mdcfglck := Lock(0, false);
      entrylck := Lock(0, false);
      mdcfg := seq(Regs.MDCFG_COUNT, _ => 0);
      entries := seq(Regs.ENTRY_COUNT, _ => EntryWords(0, 0, 0));
    }

    /** A write to MDCFGLCK: the F field and L bit of the data go through LockNext. */
    method WriteMdcfglck(data: nat)
      requires Valid()
      modifies this
      ensures Valid()
      ensures mdcfglck == LockNext(old(mdcfglck), Extract(data, Regs.MDCFGLCK_F_FIELD), Bit(data, Regs.MDCFGLCK_L_BIT))
      ensures entrylck == old(entrylck) && mdcfg == old(mdcfg) && entries == old(entries)
    {
      mdcfglck := LockNext(mdcfglck, Extract(data, Regs.MDCFGLCK_F_FIELD), Bit(data, Regs.MDCFGLCK_L_BIT));
    }

    /** A write to ENTRYLCK. */
    method WriteEntrylck(data: nat)
      requires Valid()
      modifies this
      ensures Valid()
      ensures entrylck == LockNext(old(entrylck), Extract(data, Regs.ENTRYLCK_F_FIELD), Bit(data, Regs.ENTRYLCK_L_BIT))
      ensures mdcfglck == old(mdcfglck) && mdcfg == old(mdcfg) && entries == old(entries)
    {
      entrylck := LockNext(entrylck, Extract(data, Regs.ENTRYLCK_F_FIELD), Bit(data, Regs.ENTRYLCK_L_BIT));
    }

    /** A write to MDCFG_j: ignored when j < MDCFGLCK.F. */
    method WriteMdcfg(j: nat, data: nat)
      requires Valid() && j < Regs.MDCFG_COUNT
      modifies this
      ensures Valid()
      ensures mdcfg == if j < old(mdcfglck.f) then old(mdcfg) else old(mdcfg)[j := data]
      ensures mdcfglck == old(mdcfglck) && entrylck == old(entrylck) && entries == old(entries)
    {
      if j >= mdcfglck.f {
        mdcfg := mdcfg[j := data];
      }
    }

    /** A write to ENTRY_ADDRj, ENTRY_ADDRHj or ENTRY_CFGj, told apart by the offset
        within the entry: ignored when j < ENTRYLCK.F. */
    method WriteEntry(j: nat, w: RegWrite)
      requires Valid() && j < Regs.ENTRY_COUNT
      modifies this
      ensures Valid()
      ensures entries == if j < old(entrylck.f) then old(entries) else old(entries)[j := WithWord(old(entries)[j], j, w)]
      ensures mdcfglck == old(mdcfglck) && entrylck == old(entrylck) && mdcfg == old(mdcfg)
    {
      if j >= entrylck.f {
        entries := entries[j := WithWord(entries[j], j, w)];
      }
    }

    /** read_mdcfg_entry: one byte of MDCFG_j. */
    function ReadMdcfg(j: nat): nat
      requires Valid() && j < Regs.MDCFG_COUNT
      reads this
    {
      ReadBytes(mdcfg[j], 1)
    }

    /** read_entry: one byte of ENTRY_ADDRj and one of ENTRY_ADDRHj. */
    function ReadEntry(j: nat): (nat, nat)
      requires Valid() && j < Regs.ENTRY_COUNT
      reads this
    {
      (ReadBytes(entries[j].addr, 1), ReadBytes(entries[j].addrh, 1))
    }
  }

  /** The entry words after a write at one of entry j's three offsets; a write elsewhere
      leaves them as they are. */
  function WithWord(e: EntryWords, j: nat, w: RegWrite): EntryWords
  {
    if w.offset == Regs.Offset(Regs.EntryAddr(j)) then e.(addr := w.data)
    else if w.offset == Regs.Offset(Regs.EntryAddrh(j)) then e.(addrh := w.data)
    else if w.offset == Regs.Offset(Regs.EntryCfg(j)) then e.(cfg := w.data)
    else e
  }

  // ---------------------------------------------------------------------------
  // The locking test, replayed on the reference machine

  /** The first loop of locking_test: for each domain i, MDCFGLCK.F := i + 1, then
      MDCFG_i := i + 1, then MDCFG_i is read. Every read returns 0. */
  method MdcfgLockingLoop() returns (observed: seq<nat>)
    ensures |observed| == MEM_DOMAINS
    ensures forall i :: 0 <= i < |observed| ==> observed[i] == 0
  {
    var m := new LockModel();
    observed := [];
    for i := 0 to MEM_DOMAINS
      invariant m.Valid() && m.mdcfglck == Lock(i, false)
      invariant forall j :: 0 <= j < Regs.MDCFG_COUNT ==> m.mdcfg[j] == 0
      invariant |observed| == i && forall k :: 0 <= k < i ==> observed[k] == 0
    {
      MdcfglckRoundTrip(i + 1, false);
      var w := SetMdcfglck(i + 1, false);
      m.WriteMdcfglck(w.value.data);
      m.WriteMdcfg(i, MdRanges.SetMdcfgEntry(i, i + 1).value.data);
      observed := observed + [m.ReadMdcfg(i)];
    }
  }

  /** The second loop of locking_test: for each entry i, ENTRYLCK.F := i + 1, then entry
      i is programmed as TOR over 0xFFFF105A45 with read access, then read. Both words of
      every read are 0. */
  method EntryLockingLoop() returns (observed: seq<(nat, nat)>)
    ensures |observed| == PmpEntry.IOPMP_ENTRIES
    ensures forall i :: 0 <= i < |observed| ==> observed[i] == (0, 0)
  {
    var m := new LockModel();
    observed := [];
    for i := 0 to PmpEntry.IOPMP_ENTRIES
      invariant m.Valid() && m.entrylck == Lock(i, false)
      invariant forall j :: 0 <= j < Regs.ENTRY_COUNT ==> m.entries[j] == EntryWords(0, 0, 0)
      invariant |observed| == i && forall k :: 0 <= k < i ==> observed[k] == (0, 0)
    {
      LockAndProbeEntry(m, i);
      observed := observed + [m.ReadEntry(i)];
    }
  }

  /** One round of that loop before the read: ENTRYLCK.F := i + 1, which locks entry i,
      then the three TOR writes to entry i, which the lock ignores. */
  method LockAndProbeEntry(m: LockModel, i: nat)
    requires m.Valid() && m.entrylck == Lock(i, false) && i < PmpEntry.IOPMP_ENTRIES
    modifies m
    ensures m.Valid() && m.entrylck == Lock(i + 1, false) && m.entries == old(m.entries)
  {
    EntrylckRoundTrip(i + 1, false);
    var lw := SetEntrylck(i + 1, false);
    m.WriteEntrylck(lw.value.data);
    var ws := PmpEntry.SetEntryTor(0xFFFF105A45, PmpEntry.ACCESS_READ, i);
    assert ws.Ok? && |ws.value| == 3;
    m.WriteEntry(i, ws.value[0]);
    m.WriteEntry(i, ws.value[1]);
    m.WriteEntry(i, ws.value[2]);
  }

  /** The probe of the entry loop is visible through read_entry's one-byte reads: had
      the write to ENTRY_ADDRi not been ignored, the read would return 0x91, and the
      probe of the MDCFG loop would read back as i + 1. */
  lemma LockingProbesVisible(i: nat)
    requires i < PmpEntry.IOPMP_ENTRIES
    ensures var r := PmpEntry.SetEntryTor(0xFFFF105A45, PmpEntry.ACCESS_READ, i);
      r.Ok? && ReadBytes(r.value[0].data, 1) == 0x91
    ensures i < MEM_DOMAINS ==> ReadBytes(i + 1, 1) == i + 1
  {
    var r := PmpEntry.SetEntryTor(0xFFFF105A45, PmpEntry.ACCESS_READ, i);
    assert r.value == PmpEntry.EntryWrites(0xFFFF105A45, PmpEntry.Tor, PmpEntry.ACCESS_READ, i);
    assert r.value[0].data == Lo32(0x3F_FFC4_1691) == 0xFFC4_1691;
    Pow2Values();
    assert ReadBytes(0xFFC4_1691, 1) == Low(0xFFC4_1691, 8) == 0xFFC4_1691 % 0x100;
  }

  /** The MDCFGLCK sequence of locking_test after reset, returning the five values the
      test observed: F after writing 2, F after trying 1, and L after locking and trying 4,
      after trying to clear L, and after writing L again. */
  method MdcfglckLockingSequence() returns (initial: nat, current: nat, lock1: nat, lock2: nat, lock3: nat)
    ensures initial == 2 && current == initial
    ensures lock1 == 1 && lock2 == 1 && lock3 == 1
  {
    var m := new LockModel();
    MdcfglckRoundTrip(2, false);
    m.WriteMdcfglck(SetMdcfglck(2, false).value.data);
    LockWordFields(m.mdcfglck.f, m.mdcfglck.l, 0x7f, 7);
    initial := ReadMdcfglck(m.mdcfglck.Word()).0;

    MdcfglckRoundTrip(initial - 1, false);
    m.WriteMdcfglck(SetMdcfglck(initial - 1, false).value.data);
    LockWordFields(m.mdcfglck.f, m.mdcfglck.l, 0x7f, 7);
    current := ReadMdcfglck(m.mdcfglck.Word()).0;

    MdcfglckRoundTrip(initial, true);
    m.WriteMdcfglck(SetMdcfglck(initial, true).value.data);
    MdcfglckRoundTrip(MEM_DOMAINS, false);
    m.WriteMdcfglck(SetMdcfglck(MEM_DOMAINS, false).value.data);
    LockWordFields(m.mdcfglck.f, m.mdcfglck.l, 0x7f, 7);
    lock1 := ReadMdcfglck(m.mdcfglck.Word()).1;

    MdcfglckRoundTrip(initial, false);
    m.WriteMdcfglck(SetMdcfglck(initial, false).value.data);
    LockWordFields(m.mdcfglck.f, m.mdcfglck.l, 0x7f, 7);
    lock2 := ReadMdcfglck(m.mdcfglck.Word()).1;

    MdcfglckRoundTrip(initial, true);
    m.WriteMdcfglck(SetMdcfglck(initial, true).value.data);
    LockWordFields(m.mdcfglck.f, m.mdcfglck.l, 0x7f, 7);
    lock3 := ReadMdcfglck(m.mdcfglck.Word()).1;
  }

  /** The ENTRYLCK sequence of locking_test after reset, read through the one-byte
      read_entrylck: F after writing 2, F after trying 1, F after locking and trying 4,
      and L after trying to clear it and after writing it again. */
  method EntrylckLockingSequence() returns (initial: nat, current: nat, frozen: nat, lock1: nat, lock2: nat)
    ensures initial == 2 && current == initial && frozen == initial
    ensures lock1 == 1 && lock2 == 1
  {
    var m := new LockModel();
    EntrylckRoundTrip(2, false);
    m.WriteEntrylck(SetEntrylck(2, false).value.data);
    LockWordFields(m.entrylck.f, m.entrylck.l, 0xffff, 16);
    initial := ReadEntrylck(m.entrylck.Word()).0;

    EntrylckRoundTrip(initial - 1, false);
    m.WriteEntrylck(SetEntrylck(initial - 1, false).value.data);
    LockWordFields(m.entrylck.f, m.entrylck.l, 0xffff, 16);
    current := ReadEntrylck(m.entrylck.Word()).0;

    EntrylckRoundTrip(initial, true);
    m.WriteEntrylck(SetEntrylck(initial, true).value.data);
    EntrylckRoundTrip(MEM_DOMAINS, false);
    m.WriteEntrylck(SetEntrylck(MEM_DOMAINS, false).value.data);
    LockWordFields(m.entrylck.f, m.entrylck.l, 0xffff, 16);
    frozen := ReadEntrylck(m.entrylck.Word()).0;

    EntrylckRoundTrip(initial, false);
    m.WriteEntrylck(SetEntrylck(initial, false).value.data);
    LockWordFields(m.entrylck.f, m.entrylck.l, 0xffff, 16);
    lock1 := ReadEntrylck(m.entrylck.Word()).1;

    EntrylckRoundTrip(initial, true);
    m.WriteEntrylck(SetEntrylck(initial, true).value.data);
    LockWordFields(m.entrylck.f, m.entrylck.l, 0xffff, 16);
    lock2 := ReadEntrylck(m.entrylck.Word()).1;
  }
}
