/**
 * The testbench's SRCMD programming: a list of memory-domain numbers becomes a 63-bit
 * bitarray (most significant bit first), a zero lock bit is appended, and the 64-bit
 * result is written as SRCMD_ENi (its low half) and SRCMD_ENHi (its high half).
 */
module Srcmd {
  import opened Bits
  import opened Wrappers
  import opened TbBus
  import Regs = RvIopmpRegs

  /** Memory domains a SRCMD_EN/ENH pair can enable. */
  const MD_BITS: nat := 63

  /** The value of a bitarray, most significant bit first (ba2int). */
  function BitsValue(bs: seq<bool>): nat
  {
    if |bs| == 0 then 0 else 2 * BitsValue(bs[..|bs| - 1]) + (if bs[|bs| - 1] then 1 else 0)
  }

  lemma {:induction false} BitsValueBound(bs: seq<bool>)
    ensures BitsValue(bs) < Pow2(|bs|)
  {
    if |bs| > 0 {
      BitsValueBound(bs[..|bs| - 1]);
    }
  }

  /** Bit k of the value is the k-th element counted from the end of the bitarray. */
  lemma {:induction false} BitOfBitsValue(bs: seq<bool>, k: nat)
    requires k < |bs|
    ensures Bit(BitsValue(bs), k) <==> bs[|bs| - 1 - k]
  {
    var v, init := BitsValue(bs), bs[..|bs| - 1];
    if k == 0 {
      assert Shr(v, 0) == v;
    } else {
      ShrShr(v, 1, k - 1);
      assert Shr(v, 1) == BitsValue(init);
      BitOfBitsValue(init, k - 1);
    }
  }

  /** Appending one zero bit doubles the value and moves every bit up by one. */
  lemma ShiftedBit(v: nat, m: nat)
    ensures Bit(2 * v, m + 1) <==> Bit(v, m)
  {
    ShrShr(2 * v, 1, m);
    assert Shr(2 * v, 1) == v;
  }

  /** The bitarray md after md[62 - e] = 1 for every e of the list: Python's negative
      indices make e and e + 63 address the same position. */
  function MdBitmap(mdList: seq<int>): (md: seq<bool>)
    ensures |md| == MD_BITS
  {
    seq(MD_BITS, p requires 0 <= p < MD_BITS => (62 - p) in mdList || (125 - p) in mdList)
  }

  /** md[62 - e] exists exactly when -63 <= 62 - e < 63. */
  predicate Indexable(e: int)
  {
    0 <= e <= 125
  }

  /** The writes set_srcmd_entry performs, or the exception it raises first. */
  function SrcmdWrites(entryNo: int, mdList: seq<int>): (r: Result<seq<RegWrite>, TbError>)
    ensures r.Ok? <==> (forall e :: e in mdList ==> Indexable(e)) && 0 <= entryNo < Regs.SRCMD_COUNT
    ensures r.Err? ==> (r.error == IndexError <==> exists e :: e in mdList && !Indexable(e))
    ensures r.Err? ==> r.error in {IndexError, KeyError}
    ensures r.Ok? ==>
      && |r.value| == 2
      && r.value[0].offset == Regs.Offset(Regs.SrcmdEn(entryNo)) && r.value[0].bytes == 4
      && r.value[1].offset == Regs.Offset(Regs.SrcmdEnh(entryNo)) && r.value[1].bytes == 4
      && r.value[0].data < 0x1_0000_0000 && r.value[1].data < 0x1_0000_0000
  {
    if exists e :: e in mdList && !Indexable(e) then Err(IndexError)
    else if !(0 <= entryNo < Regs.SRCMD_COUNT) then Err(KeyError)
    else
      var en := 2 * BitsValue(MdBitmap(mdList));
      MdWordBound(mdList);
      SplitHalves(en);
      Ok([RegWrite(Regs.SrcmdEnOffset(entryNo), Lo32(en), 4),
          RegWrite(Regs.SrcmdEnhOffset(entryNo), Hi32(en), 4)])
  }

  /** The 63-bit bitarray value, doubled by the lock bit, fits in 64 bits. */
  lemma MdWordBound(mdList: seq<int>)
    ensures 2 * BitsValue(MdBitmap(mdList)) < 0x1_0000_0000_0000_0000
  {
    BitsValueBound(MdBitmap(mdList));
    Pow2Add(63, 1);
    Pow2Values();
  }

  /** The memory domains an SRCMD_EN/ENH pair enables: MD m is bit m + 1 of the 64-bit
      word ENH:EN, since bit 0 of SRCMD_EN is the lock bit L. */
  function EnabledMds(en: nat, enh: nat): set<nat>
  {
    var word := enh * 0x1_0000_0000 + en;
    set m: nat | m < MD_BITS && MdEnabled(word, m)
  }

  predicate MdEnabled(word: nat, m: nat)
  {
    Bit(word, m + 1)
  }

  /** Memory domain m is requested by the list: as m, or as m + 63 through Python's
      negative indexing. */
  predicate Listed(mdList: seq<int>, m: nat)
  {
    m in mdList || m + 63 in mdList
  }

  lemma MdBitmapAt(mdList: seq<int>, m: nat)
    requires m < MD_BITS
    ensures Bit(BitsValue(MdBitmap(mdList)), m) <==> Listed(mdList, m)
  {
    BitOfBitsValue(MdBitmap(mdList), m);
  }

  /** Programming SRCMDi with a list of in-range domains enables exactly the domains m
      for which m or m + 63 is listed, and leaves the lock bit clear. */
  lemma SrcmdEnables(entryNo: int, mdList: seq<int>)
    requires (forall e :: e in mdList ==> Indexable(e)) && 0 <= entryNo < Regs.SRCMD_COUNT
    ensures var r := SrcmdWrites(entryNo, mdList);
      r.Ok?
      && EnabledMds(r.value[0].data, r.value[1].data)
         == set m: nat | m < MD_BITS && Listed(mdList, m)
      && !Bit(r.value[0].data, Regs.SRCMD_EN_L_BIT)
  {
    var r := SrcmdWrites(entryNo, mdList);
    var val := BitsValue(MdBitmap(mdList));
    MdWordBound(mdList);
    SplitHalves(2 * val);
    EnabledMdsOfList(r.value[0].data, r.value[1].data, mdList);
    LockBitClear(val);
  }

  lemma EnabledMdsOfList(en: nat, enh: nat, mdList: seq<int>)
    requires enh * 0x1_0000_0000 + en == 2 * BitsValue(MdBitmap(mdList))
    ensures EnabledMds(en, enh) == set m: nat | m < MD_BITS && Listed(mdList, m)
  {
    var val := BitsValue(MdBitmap(mdList));
    forall m: nat | m < MD_BITS
      ensures MdEnabled(2 * val, m) <==> Listed(mdList, m)
    {
      ShiftedBit(val, m);
      MdBitmapAt(mdList, m);
    }
  }

  lemma LockBitClear(val: nat)
    ensures !Bit(Lo32(2 * val), Regs.SRCMD_EN_L_BIT)
  {
    assert Shr(Lo32(2 * val), 0) == Lo32(2 * val);
  }

  /** Only the set of listed domains matters: order and repetitions do not change the
      writes. */
  lemma SrcmdListOrderIrrelevant(entryNo: int, l1: seq<int>, l2: seq<int>)
    requires forall e :: e in l1 <==> e in l2
    ensures SrcmdWrites(entryNo, l1) == SrcmdWrites(entryNo, l2)
  {
    assert MdBitmap(l1) == MdBitmap(l2);
  }

  /** Setting md[62 - e] for one more in-range element adds exactly its position. */
  lemma MdBitmapStep(pre: seq<int>, e: int)
    requires Indexable(e)
    ensures var p := if e <= 62 then 62 - e else 125 - e;
      0 <= p < MD_BITS && MdBitmap(pre + [e]) == MdBitmap(pre)[p := true]
  {
    var p := if e <= 62 then 62 - e else 125 - e;
    forall q | 0 <= q < MD_BITS
      ensures MdBitmap(pre + [e])[q] == MdBitmap(pre)[p := true][q]
    {
      assert (62 - q) in pre + [e] <==> (62 - q) in pre || 62 - q == e;
      assert (125 - q) in pre + [e] <==> (125 - q) in pre || 125 - q == e;
    }
  }

  /** set_srcmd_entry: fills the bitarray element by element, then reads it as an
      integer bit by bit, then looks up the two register offsets. */
  method SetSrcmdEntry(entryNo: int, mdList: seq<int>) returns (r: Result<seq<RegWrite>, TbError>)
    ensures r == SrcmdWrites(entryNo, mdList)
  {
    var md := new bool[MD_BITS](_ => false);
    var k := 0;
    while k < |mdList|
      invariant 0 <= k <= |mdList|
      invariant forall e :: e in mdList[..k] ==> Indexable(e)
      invariant md[..] == MdBitmap(mdList[..k])
    {
      var e := mdList[k];
      if !(-63 <= 62 - e < 63) {
        assert e in mdList && !Indexable(e);
        return Err(IndexError);
      }
      var p := if 62 - e >= 0 then 62 - e else 63 + (62 - e);
      MdBitmapStep(mdList[..k], e);
      md[p] := true;
      assert mdList[..k + 1] == mdList[..k] + [e];
      k := k + 1;
    }
    assert mdList[..k] == mdList;
    var val := 0;
    for i := 0 to MD_BITS
      invariant val == BitsValue(md[..i])
    {
      assert md[..i + 1][..i] == md[..i];
      val := 2 * val + (if md[i] then 1 else 0);
    }
    assert md[..MD_BITS] == md[..];
    if !(0 <= entryNo < Regs.SRCMD_COUNT) {
      return Err(KeyError);
    }
    var en := 2 * val;
    r := Ok([RegWrite(Regs.SrcmdEnOffset(entryNo), Lo32(en), 4),
             RegWrite(Regs.SrcmdEnhOffset(entryNo), Hi32(en), 4)]);
  }
}
