/**
 * Non-negative machine words as unbounded naturals, with the shift, and, or
 * operations the testbench applies to Python integers, and register field
 * descriptors (mask, index) as the generated headers declare them.
 */
module Bits {

  /** 2 to the power n. */
  function Pow2(n: nat): (r: nat)
    ensures r >= 1
  {
    if n == 0 then 1 else 2 * Pow2(n - 1)
  }

  lemma {:induction false} Pow2Add(a: nat, b: nat)
    ensures Pow2(a + b) == Pow2(a) * Pow2(b)
  {
    if a > 0 {
      Pow2Add(a - 1, b);
      calc {
        Pow2(a + b);
        2 * Pow2(a - 1 + b);
        2 * (Pow2(a - 1) * Pow2(b));
        (2 * Pow2(a - 1)) * Pow2(b);
      }
    }
  }

  lemma {:induction false} Pow2Monotone(a: nat, b: nat)
    requires a <= b
    ensures Pow2(a) <= Pow2(b)
  {
    Pow2Add(a, b - a);
    MulLe(1, Pow2(b - a), Pow2(a));
  }

  lemma Pow2Small()
    ensures Pow2(0) == 1 && Pow2(1) == 2 && Pow2(2) == 4 && Pow2(3) == 8 && Pow2(4) == 16
  {
  }

  /** The powers of two that the register map and the testbench need, worked out. */
  lemma Pow2Values()
    ensures Pow2(1) == 2 && Pow2(2) == 4 && Pow2(3) == 8 && Pow2(4) == 16
    ensures Pow2(7) == 0x80 && Pow2(8) == 0x100
    ensures Pow2(16) == 0x1_0000 && Pow2(24) == 0x100_0000
    ensures Pow2(31) == 0x8000_0000 && Pow2(32) == 0x1_0000_0000
    ensures Pow2(64) == 0x1_0000_0000_0000_0000
  {
    Pow2Small();
    Pow2Add(4, 3);
    Pow2Add(4, 4);
    Pow2Add(8, 8);
    Pow2Add(16, 8);
    Pow2Add(24, 7);
    Pow2Add(24, 8);
    Pow2Add(32, 32);
  }

  // ---------------------------------------------------------------------------
  // Integer arithmetic

  lemma MulLe(a: int, b: int, c: int)
    requires a <= b && c >= 0
    ensures a * c <= b * c
  {
    assert b * c - a * c == (b - a) * c;
  }

  /** Quotient and remainder are determined by x == q * d + r with 0 <= r < d. */
  lemma DivModUnique(x: int, d: int, q: int, r: int)
    requires d > 0 && 0 <= r < d && x == q * d + r
    ensures x / d == q && x % d == r
  {
    var q', r' := x / d, x % d;
    assert x == q' * d + r';
    if q > q' {
      MulLe(q' + 1, q, d);
      assert false;
    } else if q < q' {
      MulLe(q + 1, q', d);
      assert false;
    }
  }

  lemma DivExact(x: nat, d: nat)
    requires d > 0 && x % d == 0
    ensures x == (x / d) * d
  {
  }

  /** Dividing by a then by b is dividing by a * b. */
  lemma DivDiv(x: nat, a: nat, b: nat)
    requires a > 0 && b > 0
    ensures x / a / b == x / (a * b)
    ensures (x / a) % b == (x % (a * b)) / a
  {
    var q, r := x / (a * b), x % (a * b);
    assert x == q * (a * b) + r;
    var r1, r2 := r / a, r % a;
    assert r == r1 * a + r2;
    assert r1 < b by {
      if r1 >= b {
        MulLe(b, r1, a);
        assert false;
      }
    }
    assert x == (q * b + r1) * a + r2;
    DivModUnique(x, a, q * b + r1, r2);
    DivModUnique(x / a, b, q, r1);
  }

  lemma ModMod(x: nat, d: nat, e: nat)
    requires d > 0 && e > 0
    ensures x % (d * e) % d == x % d
  {
    var q, r := x / (d * e), x % (d * e);
    assert x == q * (d * e) + r;
    assert q * (d * e) == (q * e) * d;
    DivModUnique(x, d, q * e + r / d, r % d);
  }

  lemma ModDouble(a: nat, p: nat)
    requires p > 0
    ensures a % (2 * p) == 2 * ((a / 2) % p) + a % 2
  {
    DivDiv(a, 2, p);
    ModMod(a, 2, p);
    assert a % (p * 2) % 2 == a % 2;
  }

  /** a * p + l stays below q * p when a < q and l < p. */
  lemma BelowProduct(a: int, q: int, p: int, l: int)
    requires 0 <= a < q && 0 <= l < p
    ensures a * p + l < q * p && a * p + l < p * q
  {
    MulLe(a + 1, q, p);
  }

  lemma Regroup(h: int, q: int, v: int, p: int, l: int)
    ensures h * (p * q) + v * p + l == (h * q + v) * p + l
  {
  }

  // ---------------------------------------------------------------------------
  // Shifts and bitwise operations on naturals (Python's >>, <<, &, |)

  /** Dividing a natural by a positive number gives a natural no larger. */
  lemma DivBounds(w: nat, d: nat)
    requires d > 0
    ensures 0 <= w / d <= w
  {
    var q, r := w / d, w % d;
    if q < 0 {
      MulLe(q, -1, d);
      assert false;
    } else if q > w {
      MulLe(w + 1, q, d);
      MulLe(1, d, w + 1);
      assert false;
    }
  }

  function Shr(w: nat, n: nat): nat
  {
    DivBounds(w, Pow2(n));
    w / Pow2(n)
  }

  function Shl(w: nat, n: nat): nat
  {
    w * Pow2(n)
  }

  /** The n low bits of w. */
  function Low(w: nat, n: nat): nat
  {
    w % Pow2(n)
  }

  /** Bitwise and, bit by bit from the least significant end. */
  function And(a: nat, b: nat): (r: nat)
    ensures r <= a && r <= b
  {
    if a == 0 || b == 0 then 0
    else 2 * And(a / 2, b / 2) + (if a % 2 == 1 && b % 2 == 1 then 1 else 0)
  }

  /** Bitwise or, bit by bit from the least significant end. */
  function Or(a: nat, b: nat): (r: nat)
    ensures a <= r <= a + b && b <= r
  {
    if a == 0 then b
    else if b == 0 then a
    else 2 * Or(a / 2, b / 2) + (if a % 2 == 1 || b % 2 == 1 then 1 else 0)
  }

  /** x & 1 is the parity of x. */
  lemma AndOne(x: nat)
    ensures And(x, 1) == x % 2
  {
    AndLowMask(x, 1);
    assert Pow2(1) == 2;
  }

  /** Bit i of w is set. */
  predicate Bit(w: nat, i: nat)
  {
    Shr(w, i) % 2 == 1
  }

  /** The n low bits are below 2^n, and a value already below 2^n is its own low bits. */
  lemma LowBounds(w: nat, n: nat)
    ensures Low(w, n) < Pow2(n)
    ensures w < Pow2(n) ==> Low(w, n) == w
  {
    if w < Pow2(n) {
      DivModUnique(w, Pow2(n), 0, w);
    }
  }

  /** A word built as hi above k low bits lo splits back into hi and lo. */
  lemma ShrLowOfSum(hi: nat, lo: nat, k: nat)
    requires lo < Pow2(k)
    ensures Shr(hi * Pow2(k) + lo, k) == hi
    ensures Low(hi * Pow2(k) + lo, k) == lo
  {
    DivModUnique(hi * Pow2(k) + lo, Pow2(k), hi, lo);
  }

  lemma ShrShr(x: nat, a: nat, b: nat)
    ensures Shr(Shr(x, a), b) == Shr(x, a + b)
  {
    Pow2Add(a, b);
    DivDiv(x, Pow2(a), Pow2(b));
  }

  /** The k low bits of a are the k - 1 low bits of a / 2, then the parity of a. */
  lemma LowStep(a: nat, k: nat)
    requires k > 0
    ensures Low(a, k) == 2 * Low(a / 2, k - 1) + a % 2
  {
    ModDouble(a, Pow2(k - 1));
  }

  /** And-ing with a mask of k low ones keeps the k low bits. */
  lemma {:induction false} AndLowMask(a: nat, k: nat)
    ensures And(a, Pow2(k) - 1) == Low(a, k)
  {
    if k == 0 {
    } else if a == 0 {
      LowBounds(0, k);
    } else {
      var m, p := Pow2(k) - 1, Pow2(k - 1);
      assert m / 2 == p - 1 && m % 2 == 1;
      AndLowMask(a / 2, k - 1);
      assert And(a, m) == 2 * Low(a / 2, k - 1) + a % 2;
      LowStep(a, k);
    }
  }

  /** And-ing with a field's mask keeps the field's width of low bits. */
  lemma AndMask(a: nat, f: Field)
    requires LowMask(f.mask)
    ensures And(a, f.mask) == Low(a, f.Width())
  {
    AndLowMask(a, f.Width());
  }

  /** Or-ing a value below 2^k into a word shifted left by k is addition:
      the bitarray concatenation hi + lo of the testbench. */
  lemma {:induction false} OrShifted(a: nat, b: nat, k: nat)
    requires b < Pow2(k)
    ensures Or(Shl(a, k), b) == Shl(a, k) + b
  {
    if k == 0 || a == 0 || b == 0 {
    } else {
      var s, s' := Shl(a, k), Shl(a, k - 1);
      assert s == 2 * s';
      assert b / 2 < Pow2(k - 1);
      OrShifted(a, b / 2, k - 1);
      assert Or(s, b) == 2 * Or(s', b / 2) + b % 2;
    }
  }

  // ---------------------------------------------------------------------------
  // Field descriptors

  /** Number of significant bits of m. */
  function MaskWidth(m: nat): nat
  {
    if m == 0 then 0 else 1 + MaskWidth(m / 2)
  }

  lemma {:induction false} MaskWidthOfLowMask(k: nat)
    ensures MaskWidth(Pow2(k) - 1) == k
  {
    if k > 0 {
      MaskWidthOfLowMask(k - 1);
      assert (Pow2(k) - 1) / 2 == Pow2(k - 1) - 1;
    }
  }

  /** m is a run of ones starting at bit 0, as every mask of the headers is. */
  predicate LowMask(m: nat)
  {
    m == Pow2(MaskWidth(m)) - 1
  }

  /** A register field: (w >> index) & mask reads it. A single-bit field has mask 1. */
  datatype Field = Field(mask: nat, index: nat)
  {
    function Width(): nat
    {
      MaskWidth(mask)
    }

    /** One past the most significant bit of the field. */
    function Top(): nat
    {
      index + Width()
    }

    /** The field is a run of ones lying within a register of the given width. */
    predicate FitsIn(regWidth: nat)
    {
      LowMask(mask) && Top() <= regWidth
    }
  }

  function BitField(index: nat): Field
  {
    Field(1, index)
  }

  /** The bit positions of two fields do not meet. */
  predicate Disjoint(f: Field, g: Field)
  {
    f.Top() <= g.index || g.Top() <= f.index
  }

  /** The fields, in order, lie side by side from bit 0 up to bit width: together they
      cover every bit of the word exactly once. */
  predicate Tiles(fs: seq<Field>, width: nat)
  {
    |fs| > 0 && fs[0].index == 0 && fs[|fs| - 1].Top() == width
    && forall k :: 0 <= k < |fs| - 1 ==> fs[k].Top() == fs[k + 1].index
  }

  /** Every field is a run of ones inside the word, and no two fields share a bit. */
  predicate WellFormed(fs: seq<Field>, width: nat)
  {
    (forall k :: 0 <= k < |fs| ==> fs[k].FitsIn(width))
    && forall j, k :: 0 <= j < k < |fs| ==> Disjoint(fs[j], fs[k])
  }

  /** The fields lie in increasing bit order, each ending at or below the start of the next. */
  predicate Ascending(fs: seq<Field>)
  {
    forall k :: 0 <= k < |fs| - 1 ==> fs[k].Top() <= fs[k + 1].index
  }

  lemma {:induction false} AscendingApart(fs: seq<Field>, j: nat, k: nat)
    requires Ascending(fs) && j < k < |fs|
    ensures fs[j].Top() <= fs[k].index
  {
    if j + 1 < k {
      AscendingApart(fs, j, k - 1);
      assert fs[k - 1].index <= fs[k - 1].Top();
    }
  }

  /** Fields in increasing bit order, each a run of ones below the word's top, are well formed. */
  lemma AscendingWellFormed(fs: seq<Field>, width: nat)
    requires Ascending(fs)
    requires forall k :: 0 <= k < |fs| ==> fs[k].FitsIn(width)
    ensures WellFormed(fs, width)
  {
    forall j, k | 0 <= j < k < |fs| ensures Disjoint(fs[j], fs[k]) {
      AscendingApart(fs, j, k);
    }
  }

  /** Two fields within the word, the first wholly below the second. */
  lemma TwoFieldsWellFormed(f: Field, g: Field, width: nat)
    requires f.FitsIn(width) && g.FitsIn(width) && f.Top() <= g.index
    ensures WellFormed([f, g], width)
  {
  }

  /** Field read: (w >> index) & mask. */
  function Extract(w: nat, f: Field): (r: nat)
    ensures r <= f.mask
  {
    And(Shr(w, f.index), f.mask)
  }

  /** Field write: the bits above the field, the new value masked, the bits below the field. */
  function Insert(w: nat, f: Field, v: nat): nat
  {
    Shl(Shr(w, f.Top()), f.Top()) + Shl(And(v, f.mask), f.index) + Low(w, f.index)
  }

  /** For a field whose mask is a run of low ones, reading it is a shift and a remainder. */
  lemma ExtractShr(w: nat, f: Field)
    requires LowMask(f.mask)
    ensures Extract(w, f) == Low(Shr(w, f.index), f.Width())
  {
    AndMask(Shr(w, f.index), f);
  }

  /** A field that fits in the register satisfies (mask << index) < 2^width. */
  lemma FitsShifted(f: Field, regWidth: nat)
    requires f.FitsIn(regWidth)
    ensures Shl(f.mask, f.index) < Pow2(regWidth)
  {
    var p, q := Pow2(f.index), Pow2(f.Width());
    Pow2Add(f.index, f.Width());
    Pow2Monotone(f.Top(), regWidth);
    BelowProduct(q - 1, q, p, 0);
  }

  /** Insert as a sum: the bits above the field, the value's low bits at the field, the
      bits below the field. */
  lemma InsertAsSum(w: nat, f: Field, v: nat)
    requires LowMask(f.mask)
    ensures Insert(w, f, v) == Shr(w, f.Top()) * Pow2(f.Top()) + Low(v, f.Width()) * Pow2(f.index) + Low(w, f.index)
  {
    AndMask(v, f);
  }

  /** A number written as h above a digit fv < q above l < p, in the mixed radix (p, q). */
  lemma SplitArith(x: nat, h: nat, fv: nat, l: nat, p: nat, q: nat)
    requires p > 0 && q > 0 && fv < q && l < p
    requires x == h * (p * q) + fv * p + l
    ensures x / p == h * q + fv && x % p == l
    ensures x / (p * q) == h
  {
    Regroup(h, q, fv, p, l);
    DivModUnique(x, p, h * q + fv, l);
    BelowProduct(fv, q, p, l);
    DivModUnique(x, p * q, h, fv * p + l);
  }

  /** The word written by Insert, split at the field: above, field value, below. */
  lemma InsertSplit(w: nat, f: Field, v: nat)
    requires LowMask(f.mask)
    ensures Shr(Insert(w, f, v), f.index) == Shr(w, f.Top()) * Pow2(f.Width()) + Low(v, f.Width())
    ensures Low(Insert(w, f, v), f.index) == Low(w, f.index)
    ensures Shr(Insert(w, f, v), f.Top()) == Shr(w, f.Top())
  {
    var p, q := Pow2(f.index), Pow2(f.Width());
    var h, fv, l := Shr(w, f.Top()), Low(v, f.Width()), Low(w, f.index);
    InsertAsSum(w, f, v);
    Pow2Add(f.index, f.Width());
    LowBounds(v, f.Width());
    LowBounds(w, f.index);
    SplitArith(Insert(w, f, v), h, fv, l, p, q);
  }

  /** Writing a field and reading it back gives the value written, masked. */
  lemma ExtractInsertSame(w: nat, f: Field, v: nat)
    requires LowMask(f.mask)
    ensures Extract(Insert(w, f, v), f) == And(v, f.mask)
  {
    InsertSplit(w, f, v);
    ExtractShr(Insert(w, f, v), f);
    LowBounds(v, f.Width());
    ShrLowOfSum(Shr(w, f.Top()), Low(v, f.Width()), f.Width());
    AndMask(v, f);
  }

  /** Reading a field that ends at or below bit n looks only at the n low bits. */
  lemma ExtractBelow(x: nat, g: Field, n: nat)
    requires LowMask(g.mask) && g.Top() <= n
    ensures Extract(x, g) == Extract(Low(x, n), g)
  {
    var pg, qg := Pow2(g.index), Pow2(g.Width());
    var e := Pow2(n - g.Top());
    Pow2Add(g.index, g.Width());
    Pow2Add(g.Top(), n - g.Top());
    assert Pow2(n) == (pg * qg) * e;
    ExtractShr(x, g);
    ExtractShr(Low(x, n), g);
    ModMod(x, pg * qg, e);
    DivDiv(x, pg, qg);
    DivDiv(Low(x, n), pg, qg);
  }

  /** Reading a field that starts at or above bit n looks only at the bits from n up. */
  lemma ExtractAbove(x: nat, g: Field, n: nat)
    requires LowMask(g.mask) && n <= g.index
    ensures Extract(x, g) == Extract(Shr(x, n), Field(g.mask, g.index - n))
  {
    ExtractShr(x, g);
    ExtractShr(Shr(x, n), Field(g.mask, g.index - n));
    ShrShr(x, n, g.index - n);
  }

  /** Writing a field leaves every field disjoint from it unchanged. */
  lemma ExtractInsertOther(w: nat, f: Field, g: Field, v: nat)
    requires LowMask(f.mask) && LowMask(g.mask) && Disjoint(f, g)
    ensures Extract(Insert(w, f, v), g) == Extract(w, g)
  {
    var x := Insert(w, f, v);
    InsertSplit(w, f, v);
    if g.Top() <= f.index {
      ExtractBelow(x, g, f.index);
      ExtractBelow(w, g, f.index);
    } else {
      ExtractAbove(x, g, f.Top());
      ExtractAbove(w, g, f.Top());
    }
  }
}
