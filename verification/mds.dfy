/**
 * Memory domains: MDCFG_m holds the top index T of domain m, so domain m owns the
 * entries from MDCFG_(m-1).T (0 for m = 0) up to, not including, MDCFG_m.T. The
 * testbench programs the tops with random steps and then tests each domain's entries.
 */
module MdRanges {
  import opened Bits
  import opened Wrappers
  import opened TbBus
  import Regs = RvIopmpRegs
  import PmpEntry

  /** set_mdcfg_entry: the offset lookup raises KeyError first; t.to_bytes(4) raises
      OverflowError for a t outside 32 bits. */
  function SetMdcfgEntry(entryNo: int, t: int): (r: Result<RegWrite, TbError>)
    ensures r.Ok? <==> 0 <= entryNo < Regs.MDCFG_COUNT && 0 <= t < 0x1_0000_0000
    ensures r.Err? ==> (r.error == KeyError <==> !(0 <= entryNo < Regs.MDCFG_COUNT))
    ensures r.Err? ==> r.error in {KeyError, OverflowError}
    ensures r.Ok? ==> r.value == RegWrite(Regs.Offset(Regs.Mdcfg(entryNo)), t, 4)
  {
    if !(0 <= entryNo < Regs.MDCFG_COUNT) then Err(KeyError)
    else if !(0 <= t < 0x1_0000_0000) then Err(OverflowError)
    else Ok(RegWrite(Regs.MdcfgOffset(entryNo), t, 4))
  }

  /** For a top below 2^16 the word set_mdcfg_entry writes holds the top in T and leaves
      RES clear. */
  lemma MdcfgEntryFields(entryNo: int, t: int)
    requires SetMdcfgEntry(entryNo, t).Ok? && t <= 0xffff
    ensures var d := SetMdcfgEntry(entryNo, t).value.data;
      Extract(d, Regs.MDCFG_T_FIELD) == t && Extract(d, Regs.MDCFG_RES_FIELD) == 0
  {
    Pow2Values();
    AndLowMask(t, 16);
    LowBounds(t, 16);
    assert Shr(t, 0) == t;
    assert Shr(t, 16) == 0;
  }

  /** Tops strictly increase. */
  predicate Increasing(tops: seq<nat>)
  {
    forall i, j :: 0 <= i < j < |tops| ==> tops[i] < tops[j]
  }

  /** set_random_mds, with the random draws as parameters: t0 is the first top and
      steps[i] the step drawn after programming domain i (the last one is drawn but not
      used). Domains 0 .. MEM_DOMAINS - 2 get the running tops, the last domain gets
      IOPMP_ENTRIES. */
  method SetRandomMds(t0: int, steps: seq<int>) returns (tops: seq<nat>, writes: seq<RegWrite>)
    requires 1 <= t0 <= 4
    requires |steps| == MEM_DOMAINS - 1 && forall k :: 0 <= k < |steps| ==> 1 <= steps[k] <= 4
    ensures |tops| == |writes| == MEM_DOMAINS
    ensures tops[0] == t0
    ensures forall i :: 0 <= i < MEM_DOMAINS - 2 ==> tops[i + 1] == tops[i] + steps[i]
    ensures tops[MEM_DOMAINS - 1] == PmpEntry.IOPMP_ENTRIES
    ensures Increasing(tops)
    ensures forall i :: 0 <= i < MEM_DOMAINS ==> writes[i] == RegWrite(Regs.Offset(Regs.Mdcfg(i)), tops[i], 4)
  {
    tops, writes := [], [];
    var t: int := t0;
    for i := 0 to MEM_DOMAINS - 1
      invariant |tops| == |writes| == i
      invariant i > 0 ==> tops[0] == t0
      invariant forall k :: 0 <= k < i - 1 ==> tops[k + 1] == tops[k] + steps[k]
      invariant i > 0 ==> t == tops[i - 1] + steps[i - 1]
      invariant i == 0 ==> t == t0
      invariant t0 + i <= t <= t0 + 4 * i
      invariant Increasing(tops) && forall k :: 0 <= k < i ==> tops[k] < t
      invariant forall k :: 0 <= k < i ==> writes[k] == RegWrite(Regs.Offset(Regs.Mdcfg(k)), tops[k], 4)
    {
      var w := SetMdcfgEntry(i, t);
      assert w.value == RegWrite(Regs.Offset(Regs.Mdcfg(i)), t, 4);
      IncreasingAppend(tops, t);
      writes := writes + [w.value];
      tops := tops + [t];
      t := t + steps[i];
    }
    var last := SetMdcfgEntry(MEM_DOMAINS - 1, PmpEntry.IOPMP_ENTRIES);
    IncreasingAppend(tops, PmpEntry.IOPMP_ENTRIES);
    writes := writes + [last.value];
    tops := tops + [PmpEntry.IOPMP_ENTRIES];
  }

  /** A top above every earlier one keeps the tops increasing. */
  lemma IncreasingAppend(tops: seq<nat>, t: nat)
    requires Increasing(tops) && forall k :: 0 <= k < |tops| ==> tops[k] < t
    ensures Increasing(tops + [t])
  {
  }

  // ---------------------------------------------------------------------------
  // The range rule

  /** The first entry of domain m. */
  function MdStart(tops: seq<nat>, m: nat): nat
    requires m < |tops|
  {
    if m == 0 then 0 else tops[m - 1]
  }

  /** Entry j belongs to domain m. */
  predicate InMd(tops: seq<nat>, m: nat, j: nat)
  {
    m < |tops| && MdStart(tops, m) <= j < tops[m]
  }

  /** With increasing tops, the domains partition the entries below the last top: every
      such entry belongs to some domain ... */
  lemma {:induction false} OwnerOf(tops: seq<nat>, j: nat) returns (m: nat)
    requires |tops| > 0 && Increasing(tops) && j < tops[|tops| - 1]
    ensures InMd(tops, m, j)
    decreases |tops|
  {
    var n := |tops| - 1;
    if n == 0 {
      m := 0;
    } else if j < tops[n - 1] {
      m := OwnerOf(tops[..n], j);
      assert tops[..n][m] == tops[m];
      if m > 0 {
        assert tops[..n][m - 1] == tops[m - 1];
      }
    } else {
      m := n;
    }
  }

  /** ... and to one domain only; the entries at or above the last top belong to none. */
  lemma OwnerUnique(tops: seq<nat>, j: nat, m1: nat, m2: nat)
    requires Increasing(tops) && InMd(tops, m1, j) && InMd(tops, m2, j)
    ensures m1 == m2
  {
  }

  lemma NoOwnerAbove(tops: seq<nat>, j: nat, m: nat)
    requires |tops| > 0 && Increasing(tops) && j >= tops[|tops| - 1]
    ensures !InMd(tops, m, j)
  {
    if m < |tops| - 1 {
      assert tops[m] < tops[|tops| - 1];
    }
  }

  /** The tops set_random_mds programs cover all IOPMP_ENTRIES entries: each entry
      belongs to exactly one domain. */
  lemma RandomMdsPartition(tops: seq<nat>, j: nat)
    requires |tops| == MEM_DOMAINS && Increasing(tops) && tops[MEM_DOMAINS - 1] == PmpEntry.IOPMP_ENTRIES
    requires j < PmpEntry.IOPMP_ENTRIES
    ensures exists m :: InMd(tops, m, j)
    ensures forall m1, m2 :: InMd(tops, m1, j) && InMd(tops, m2, j) ==> m1 == m2
  {
    var m := OwnerOf(tops, j);
    forall m1, m2 | InMd(tops, m1, j) && InMd(tops, m2, j)
      ensures m1 == m2
    {
      OwnerUnique(tops, j, m1, m2);
    }
  }

  /** The entries range(start, stop) of a test loop. */
  function Range(start: int, stop: int): set<nat>
  {
    set j: nat | j < stop && Between(start, j, stop)
  }

  predicate Between(start: int, j: int, stop: int)
  {
    start <= j < stop
  }

  /** tor_entry_test starts at 1 when asked to start at 0: entry 0 has no TOR lower
      neighbour to program. */
  function TorTested(start: int, stop: int): (r: set<nat>)
    ensures 0 !in r || start < 0
    ensures start >= 0 ==> forall j: nat :: j in r <==> start <= j < stop && j != 0
  {
    Range(if start == 0 then 1 else start, stop)
  }

  /** The (start, stop) the multi-SID tests pass for domain m, as written: for m = 0 the
      call is (stop = 0, start = tops[0]). */
  function MdTestBoundsAsWritten(tops: seq<nat>, m: nat): (int, int)
    requires m < |tops|
  {
    if m == 0 then (tops[0], 0) else (tops[m - 1], tops[m])
  }

  /** The (start, stop) for domain m following the range rule: MdStart up to the top. */
  function MdTestBounds(tops: seq<nat>, m: nat): (b: (int, int))
    requires m < |tops|
    ensures forall j: nat :: j in Range(b.0, b.1) <==> InMd(tops, m, j)
  {
    (MdStart(tops, m), tops[m])
  }

  /** As written, the calls for domain 0 test no entry at all, although domain 0 owns
      tops[0] >= 1 entries. */
  lemma Md0UntestedAsWritten(tops: seq<nat>)
    requires |tops| > 0 && tops[0] >= 1
    ensures var (start, stop) := MdTestBoundsAsWritten(tops, 0);
      Range(start, stop) == {} && TorTested(start, stop) == {}
    ensures InMd(tops, 0, 0)
  {
    var (start, stop) := MdTestBoundsAsWritten(tops, 0);
    forall j: nat ensures j !in Range(start, stop) { }
    forall j: nat ensures j !in TorTested(start, stop) { }
  }

  /** With the bounds of the range rule, the NAPOT test covers exactly the entries of
      domain m, and the TOR test covers them all except entry 0. */
  lemma MdTestsCoverDomain(tops: seq<nat>, m: nat)
    requires m < |tops|
    ensures var (start, stop) := MdTestBounds(tops, m);
      && (forall j: nat :: j in Range(start, stop) <==> InMd(tops, m, j))
      && (forall j: nat :: j in TorTested(start, stop) <==> InMd(tops, m, j) && j != 0)
  {
  }

  /** For the other domains the calls as written already follow the rule. */
  lemma AsWrittenAgreesAboveMd0(tops: seq<nat>, m: nat)
    requires 0 < m < |tops|
    ensures MdTestBoundsAsWritten(tops, m) == MdTestBounds(tops, m)
  {
  }
}
