/**
 * What the testbench helpers hand to the configuration port: register writes of a
 * number of little-endian bytes, and register reads that return the low bytes of a
 * register. The exceptions a helper can raise before it writes anything are values.
 */
module TbBus {
  import opened Bits

  /** Memory domains the testbench configures. */
  const MEM_DOMAINS: nat := 4

  /** The exceptions the testbench helpers raise. */
  datatype TbError =
    | KeyError       // no *_REG_OFFSET constant exists for the requested register instance
    | IndexError     // a bitarray index outside the array
    | OverflowError  // int2ba given a negative value or one too wide for the bit count

  /** One write on the configuration port: `bytes` little-endian bytes of `data` at `offset`. */
  datatype RegWrite = RegWrite(offset: nat, data: nat, bytes: nat)

  /** A read of n bytes returns the n low bytes of the register, as an integer. */
  function ReadBytes(reg: nat, n: nat): (r: nat)
    ensures r < Pow2(8 * n)
    ensures reg < Pow2(8 * n) ==> r == reg
    ensures r <= reg && (reg - r) % Pow2(8 * n) == 0
  {
    LowBounds(reg, 8 * n);
    var p := Pow2(8 * n);
    DivBounds(reg, p);
    DivModUnique(reg - reg % p, p, reg / p, 0);
    Low(reg, 8 * n)
  }

  /** The low 32 bits of a 64-bit value: the bitarray slice [32:]. */
  function Lo32(v: nat): nat
  {
    v % 0x1_0000_0000
  }

  /** The high 32 bits of a 64-bit value: the bitarray slice [:32]. */
  function Hi32(v: nat): nat
  {
    v / 0x1_0000_0000
  }

  /** Splitting a value into its two 32-bit halves loses nothing, and each half fits
      a four-byte write. */
  lemma SplitHalves(v: nat)
    requires v < 0x1_0000_0000_0000_0000
    ensures Lo32(v) < 0x1_0000_0000 && Hi32(v) < 0x1_0000_0000
    ensures Hi32(v) * 0x1_0000_0000 + Lo32(v) == v
  {
  }
}
