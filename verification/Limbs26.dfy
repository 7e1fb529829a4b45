/** Arithmetic of integers modulo 2^130 - 5 held in five 26-bit limbs: the
    multiplication and carry chain of poly1305-donna-32.h, and the proofs that it
    is exact and that no 32-bit or 64-bit intermediate wraps. */
module Limbs26 {
  import opened Bits
  import opened Bytes

  const P: nat := 0x3_ffff_ffff_ffff_ffff_ffff_ffff_ffff_fffb
  const TWO128: nat := 0x1_0000_0000_0000_0000_0000_0000_0000_0000
  const M26: nat := 0x400_0000

  datatype Limbs = Limbs(l0: u32, l1: u32, l2: u32, l3: u32, l4: u32) {
    function Value(): nat {
      l0 + 0x400_0000 * l1 + 0x10_0000_0000_0000 * l2
      + 0x4000_0000_0000_0000_0000 * l3 + 0x100_0000_0000_0000_0000_0000_0000 * l4
    }

    /** The bounds that every pass of the block loop leaves behind. */
    predicate Carried() {
      l0 < 0x400_0000 && l1 < 0x400_0040 && l2 < 0x400_0000 && l3 < 0x400_0000 && l4 < 0x400_0000
    }

    /** The bounds after a block has been added to carried limbs. */
    predicate Loaded() {
      l0 < 0x800_0000 && l1 < 0x800_0040 && l2 < 0x800_0000 && l3 < 0x800_0000 && l4 < 0x600_0000
    }

    /** The masks of poly1305_init bound the multiplier. */
    predicate Clamped() {
      l0 <= 0x3ff_ffff && l1 <= 0x3ff_ff03 && l2 <= 0x3ff_c0ff && l3 <= 0x3f0_3fff && l4 <= 0x00f_ffff
    }
  }

  const ZERO := Limbs(0, 0, 0, 0, 0)

  lemma MulBound(a: nat, b: nat, x: nat, y: nat)
    requires a <= x && b <= y
    ensures 0 <= a * b <= x * y
  {
    assert x * y - a * b == (x - a) * y + a * (y - b);
  }

  lemma RowBound(a: nat, x: nat, r: Limbs)
    requires a <= x && r.Clamped()
    ensures 0 <= a * r.l0 <= x * 0x3ff_ffff
    ensures 0 <= a * r.l1 <= x * 0x3ff_ff03
    ensures 0 <= a * r.l2 <= x * 0x3ff_c0ff
    ensures 0 <= a * r.l3 <= x * 0x3f0_3fff
    ensures 0 <= a * r.l4 <= x * 0x00f_ffff
  {
    MulBound(a, r.l0, x, 0x3ff_ffff);
    MulBound(a, r.l1, x, 0x3ff_ff03);
    MulBound(a, r.l2, x, 0x3ff_c0ff);
    MulBound(a, r.l3, x, 0x3f0_3fff);
    MulBound(a, r.l4, x, 0x00f_ffff);
  }

  lemma Times5(a: int, b: int)
    ensures a * (b * 5) == 5 * (a * b)
  {
  }

  /** The column sums of the schoolbook product, the upper half folded down by 5. */
  ghost function Columns(a: Limbs, r: Limbs): (int, int, int, int, int) {
    (a.l0 * r.l0 + 5 * (a.l1 * r.l4 + a.l2 * r.l3 + a.l3 * r.l2 + a.l4 * r.l1),
     a.l0 * r.l1 + a.l1 * r.l0 + 5 * (a.l2 * r.l4 + a.l3 * r.l3 + a.l4 * r.l2),
     a.l0 * r.l2 + a.l1 * r.l1 + a.l2 * r.l0 + 5 * (a.l3 * r.l4 + a.l4 * r.l3),
     a.l0 * r.l3 + a.l1 * r.l2 + a.l2 * r.l1 + a.l3 * r.l0 + 5 * (a.l4 * r.l4),
     a.l0 * r.l4 + a.l1 * r.l3 + a.l2 * r.l2 + a.l3 * r.l1 + a.l4 * r.l0)
  }

  /** What folding the upper half subtracts, divided by 2^130 - 5. */
  ghost function Folded(a: Limbs, r: Limbs): int {
    (a.l1 * r.l4 + a.l2 * r.l3 + a.l3 * r.l2 + a.l4 * r.l1)
    + 0x400_0000 * (a.l2 * r.l4 + a.l3 * r.l3 + a.l4 * r.l2)
    + 0x10_0000_0000_0000 * (a.l3 * r.l4 + a.l4 * r.l3)
    + 0x4000_0000_0000_0000_0000 * (a.l4 * r.l4)
  }

  ghost function Weigh(d0: int, d1: int, d2: int, d3: int, d4: int): int {
    d0 + 0x400_0000 * d1 + 0x10_0000_0000_0000 * d2
    + 0x4000_0000_0000_0000_0000 * d3 + 0x100_0000_0000_0000_0000_0000_0000 * d4
  }

  lemma Distribute(x0: int, x1: int, x2: int, x3: int, x4: int, y: int)
    ensures Weigh(x0, x1, x2, x3, x4) * y == Weigh(x0 * y, x1 * y, x2 * y, x3 * y, x4 * y)
  {
  }

  /** Five rows of partial products, regrouped into columns: linear in the products pij. */
  lemma Regroup(p00: int, p10: int, p20: int, p30: int, p40: int, p01: int, p11: int, p21: int, p31: int, p41: int,
                p02: int, p12: int, p22: int, p32: int, p42: int, p03: int, p13: int, p23: int, p33: int, p43: int,
                p04: int, p14: int, p24: int, p34: int, p44: int)
    ensures Weigh(Weigh(p00, p10, p20, p30, p40),
                  Weigh(p01, p11, p21, p31, p41),
                  Weigh(p02, p12, p22, p32, p42),
                  Weigh(p03, p13, p23, p33, p43),
                  Weigh(p04, p14, p24, p34, p44))
         == Weigh(p00 + 5 * (p14 + p23 + p32 + p41),
                  p01 + p10 + 5 * (p24 + p33 + p42),
                  p02 + p11 + p20 + 5 * (p34 + p43),
                  p03 + p12 + p21 + p30 + 5 * (p44),
                  p04 + p13 + p22 + p31 + p40)
            + P * ((p14 + p23 + p32 + p41)
                   + 0x400_0000 * (p24 + p33 + p42)
                   + 0x10_0000_0000_0000 * (p34 + p43)
                   + 0x4000_0000_0000_0000_0000 * (p44))
  {
  }

  ghost function Rows(a: Limbs, r: Limbs): int {
    Weigh(Weigh(a.l0 * r.l0, a.l1 * r.l0, a.l2 * r.l0, a.l3 * r.l0, a.l4 * r.l0),
          Weigh(a.l0 * r.l1, a.l1 * r.l1, a.l2 * r.l1, a.l3 * r.l1, a.l4 * r.l1),
          Weigh(a.l0 * r.l2, a.l1 * r.l2, a.l2 * r.l2, a.l3 * r.l2, a.l4 * r.l2),
          Weigh(a.l0 * r.l3, a.l1 * r.l3, a.l2 * r.l3, a.l3 * r.l3, a.l4 * r.l3),
          Weigh(a.l0 * r.l4, a.l1 * r.l4, a.l2 * r.l4, a.l3 * r.l4, a.l4 * r.l4))
  }

  lemma RowsAreProduct(a: Limbs, r: Limbs, v: int)
    requires r.l0 * v == Weigh(a.l0 * r.l0, a.l1 * r.l0, a.l2 * r.l0, a.l3 * r.l0, a.l4 * r.l0)
    requires r.l1 * v == Weigh(a.l0 * r.l1, a.l1 * r.l1, a.l2 * r.l1, a.l3 * r.l1, a.l4 * r.l1)
    requires r.l2 * v == Weigh(a.l0 * r.l2, a.l1 * r.l2, a.l2 * r.l2, a.l3 * r.l2, a.l4 * r.l2)
    requires r.l3 * v == Weigh(a.l0 * r.l3, a.l1 * r.l3, a.l2 * r.l3, a.l3 * r.l3, a.l4 * r.l3)
    requires r.l4 * v == Weigh(a.l0 * r.l4, a.l1 * r.l4, a.l2 * r.l4, a.l3 * r.l4, a.l4 * r.l4)
    ensures r.Value() * v == Rows(a, r)
  {
    Distribute(r.l0, r.l1, r.l2, r.l3, r.l4, v);
  }

  lemma RowIsWeighed(a: Limbs, y: int)
    ensures y * a.Value() == Weigh(a.l0 * y, a.l1 * y, a.l2 * y, a.l3 * y, a.l4 * y)
  {
    Distribute(a.l0, a.l1, a.l2, a.l3, a.l4, y);
  }

  lemma Product(a: Limbs, r: Limbs)
    ensures var d := Columns(a, r);
            r.Value() * a.Value() == Weigh(d.0, d.1, d.2, d.3, d.4) + P * Folded(a, r)
  {
    RowIsWeighed(a, r.l0);
    RowIsWeighed(a, r.l1);
    RowIsWeighed(a, r.l2);
    RowIsWeighed(a, r.l3);
    RowIsWeighed(a, r.l4);
    RowsAreProduct(a, r, a.Value());
    Regroup(a.l0 * r.l0, a.l1 * r.l0, a.l2 * r.l0, a.l3 * r.l0, a.l4 * r.l0,
             a.l0 * r.l1, a.l1 * r.l1, a.l2 * r.l1, a.l3 * r.l1, a.l4 * r.l1,
             a.l0 * r.l2, a.l1 * r.l2, a.l2 * r.l2, a.l3 * r.l2, a.l4 * r.l2,
             a.l0 * r.l3, a.l1 * r.l3, a.l2 * r.l3, a.l3 * r.l3, a.l4 * r.l3,
             a.l0 * r.l4, a.l1 * r.l4, a.l2 * r.l4, a.l3 * r.l4, a.l4 * r.l4);
  }

  lemma ColumnBounds(a: Limbs, r: Limbs)
    requires a.Loaded() && r.Clamped()
    ensures var d := Columns(a, r);
            d.0 < 0x400_0000_0000_0000 - 0x1_0000_0000 && d.1 < 0x400_0000_0000_0000 - 0x1_0000_0000
            && d.2 < 0x400_0000_0000_0000 - 0x1_0000_0000 && d.3 < 0x400_0000_0000_0000 - 0x1_0000_0000
            && d.4 < 0xc0_0000_0000_0000
  {
    RowBound(a.l0, 0x7ff_ffff, r);
    RowBound(a.l1, 0x800_003f, r);
    RowBound(a.l2, 0x7ff_ffff, r);
    RowBound(a.l3, 0x7ff_ffff, r);
    RowBound(a.l4, 0x5ff_ffff, r);
  }

  /** One column sum of `h *= r`; the precondition says it fits 64 bits. */
  method Column(x0: u32, y0: u32, x1: u32, y1: u32, x2: u32, y2: u32, x3: u32, y3: u32, x4: u32, y4: u32)
    returns (d: u64)
    requires x0 * y0 + x1 * y1 + x2 * y2 + x3 * y3 + x4 * y4 < 0x1_0000_0000_0000_0000
    ensures d == x0 * y0 + x1 * y1 + x2 * y2 + x3 * y3 + x4 * y4
  {
    assert x0 * y0 >= 0 && x1 * y1 >= 0 && x2 * y2 >= 0 && x3 * y3 >= 0 && x4 * y4 >= 0;
    d := x0 * y0 + x1 * y1 + x2 * y2 + x3 * y3 + x4 * y4;
  }

  /** `h *= r`: the five column sums, each within 58 bits. */
  method Multiply(a: Limbs, r: Limbs) returns (d0: u64, d1: u64, d2: u64, d3: u64, d4: u64)
    requires a.Loaded() && r.Clamped()
    ensures Columns(a, r) == (d0, d1, d2, d3, d4)
    ensures d0 < 0x400_0000_0000_0000 && d1 < 0x400_0000_0000_0000 && d2 < 0x400_0000_0000_0000
    ensures d3 < 0x400_0000_0000_0000 && d4 < 0x400_0000_0000_0000
  {
    var s1: u32, s2: u32, s3: u32, s4: u32 := r.l1 * 5, r.l2 * 5, r.l3 * 5, r.l4 * 5;
    ColumnBounds(a, r);
    ColumnsAsComputed(a, r, s1, s2, s3, s4);
    d0 := Column(a.l0, r.l0, a.l1, s4, a.l2, s3, a.l3, s2, a.l4, s1);
    d1 := Column(a.l0, r.l1, a.l1, r.l0, a.l2, s4, a.l3, s3, a.l4, s2);
    d2 := Column(a.l0, r.l2, a.l1, r.l1, a.l2, r.l0, a.l3, s4, a.l4, s3);
    d3 := Column(a.l0, r.l3, a.l1, r.l2, a.l2, r.l1, a.l3, r.l0, a.l4, s4);
    d4 := Column(a.l0, r.l4, a.l1, r.l3, a.l2, r.l2, a.l3, r.l1, a.l4, r.l0);
  }

  /** `h *= r; (partial) h %= p` of the block loop. */
  method MultiplyReduce(a: Limbs, r: Limbs) returns (h: Limbs)
    requires a.Loaded() && r.Clamped()
    ensures h.Carried()
    ensures h.Value() % P == (r.Value() * a.Value()) % P
  {
    var d0, d1, d2, d3, d4 := Multiply(a, r);
    ColumnBounds(a, r);
    h := CarryPass(d0, d1, d2, d3, d4);
    Product(a, r);
    ghost var k: int :| h.Value() == Weigh(d0, d1, d2, d3, d4) - P * k;
    SameRemainder(r.Value() * a.Value(), h.Value(), Weigh(d0, d1, d2, d3, d4), Folded(a, r), k);
  }

  lemma SameRemainder(product: int, reduced: int, w: int, f: int, k: int)
    requires product == w + P * f && reduced == w - P * k
    ensures reduced % P == product % P
  {
    ModAddMultiple(reduced, P, f + k);
  }

  lemma ColumnsAsComputed(a: Limbs, r: Limbs, s1: int, s2: int, s3: int, s4: int)
    requires s1 == r.l1 * 5 && s2 == r.l2 * 5 && s3 == r.l3 * 5 && s4 == r.l4 * 5
    ensures var d := Columns(a, r);
            && d.0 == a.l0 * r.l0 + a.l1 * s4 + a.l2 * s3 + a.l3 * s2 + a.l4 * s1
            && d.1 == a.l0 * r.l1 + a.l1 * r.l0 + a.l2 * s4 + a.l3 * s3 + a.l4 * s2
            && d.2 == a.l0 * r.l2 + a.l1 * r.l1 + a.l2 * r.l0 + a.l3 * s4 + a.l4 * s3
            && d.3 == a.l0 * r.l3 + a.l1 * r.l2 + a.l2 * r.l1 + a.l3 * r.l0 + a.l4 * s4
  {
    Times5(a.l1, r.l4); Times5(a.l2, r.l3); Times5(a.l3, r.l2); Times5(a.l4, r.l1);
    Times5(a.l2, r.l4); Times5(a.l3, r.l3); Times5(a.l4, r.l2);
    Times5(a.l3, r.l4); Times5(a.l4, r.l3); Times5(a.l4, r.l4);
  }

  /** The carry chain after the multiplication; the carry out of the top limb returns
      to the bottom one times 5, which loses a multiple of 2^130 - 5. */
  method CarryPass(e0: u64, e1: u64, e2: u64, e3: u64, e4: u64) returns (h: Limbs)
    requires e0 < 0x400_0000_0000_0000 - 0x1_0000_0000 && e1 < 0x400_0000_0000_0000 - 0x1_0000_0000
    requires e2 < 0x400_0000_0000_0000 - 0x1_0000_0000 && e3 < 0x400_0000_0000_0000 - 0x1_0000_0000
    requires e4 < 0xc0_0000_0000_0000
    ensures h.Carried()
    ensures exists k: int :: h.Value() == Weigh(e0, e1, e2, e3, e4) - P * k
  {
    var c: u32 := e0 / M26; var h0: u32 := e0 % M26;
    var d1: u64 := e1 + c; c := d1 / M26; var h1: u32 := d1 % M26;
    var d2: u64 := e2 + c; c := d2 / M26; var h2: u32 := d2 % M26;
    var d3: u64 := e3 + c; c := d3 / M26; var h3: u32 := d3 % M26;
    var d4: u64 := e4 + c; c := d4 / M26; var h4: u32 := d4 % M26;
    ghost var k := c;
    assert Weigh(e0, e1, e2, e3, e4) == Weigh(h0, h1, h2, h3, h4) + (P + 5) * k;
    h0 := h0 + c * 5; c := h0 / M26; h0 := h0 % M26;
    h1 := h1 + c;
    h := Limbs(h0, h1, h2, h3, h4);
    assert h.Value() == Weigh(e0, e1, e2, e3, e4) - P * k;
  }

  // Final reduction

  datatype Words = Words(w0: u32, w1: u32, w2: u32, w3: u32) {
    function Value(): nat {
      w0 + 0x1_0000_0000 * w1 + 0x1_0000_0000_0000_0000 * w2
      + 0x1_0000_0000_0000_0000_0000_0000 * w3
    }
  }

  /** One carry pass, starting at limb 1 and wrapping around times 5. From limbs the
      block loop can leave, a single pass is enough: the carry back into limb 1 can
      only happen when limb 1 has just become small. */
  method FullCarry(h: Limbs) returns (n: Limbs)
    requires h.Carried()
    ensures n.l0 < M26 && n.l1 < M26 && n.l2 < M26 && n.l3 < M26 && n.l4 < M26
    ensures n.Value() == h.Value() || n.Value() == h.Value() - P
  {
    var c: u32 := h.l1 / M26; var h1: u32 := h.l1 % M26;
    var h2: u32 := h.l2 + c; c := h2 / M26; h2 := h2 % M26;
    var h3: u32 := h.l3 + c; c := h3 / M26; h3 := h3 % M26;
    var h4: u32 := h.l4 + c; c := h4 / M26; h4 := h4 % M26;
    assert h1 + M26 * h2 + 0x10_0000_0000_0000 * h3 + 0x4000_0000_0000_0000_0000 * h4
           + 0x100_0000_0000_0000_0000_0000_0000 * c
        == h.l1 + M26 * h.l2 + 0x10_0000_0000_0000 * h.l3 + 0x4000_0000_0000_0000_0000 * h.l4;
    assert c <= 1 && (c == 1 ==> h1 < 64);
    var h0: u32 := h.l0 + c * 5; c := h0 / M26; h0 := h0 % M26;
    h1 := h1 + c;
    n := Limbs(h0, h1, h2, h3, h4);
  }

  /** Masking with an all-ones or all-zeros word and combining is a selection. */
  lemma MaskSelect(h: u32, g: u32, mask: u32)
    requires mask == 0 || mask == 0xffff_ffff
    ensures Or(And(h, 0xffff_ffff - mask), And(g, mask)) == if mask == 0 then h else g
  {
    Pow2Values();
    AndOnes(h, 32);
    AndOnes(g, 32);
    AndZero(h);
    AndZero(g);
    OrZero(h);
  }

  method MaskedSelect(h: Limbs, g: Limbs, mask: u32) returns (s: Limbs)
    requires mask == 0 || mask == 0xffff_ffff
    ensures s == if mask == 0 then h else g
  {
    MaskSelect(h.l0, g.l0, mask); MaskSelect(h.l1, g.l1, mask); MaskSelect(h.l2, g.l2, mask);
    MaskSelect(h.l3, g.l3, mask); MaskSelect(h.l4, g.l4, mask);
    var unmask: u32 := 0xffff_ffff - mask;
    s := Limbs(Or(And(h.l0, unmask), And(g.l0, mask)), Or(And(h.l1, unmask), And(g.l1, mask)),
               Or(And(h.l2, unmask), And(g.l2, mask)), Or(And(h.l3, unmask), And(g.l3, mask)),
               Or(And(h.l4, unmask), And(g.l4, mask)));
  }

  lemma DifferenceWeighed(h: Limbs, g0: int, g1: int, g2: int, g3: int, c0: int, c1: int, c2: int, c3: int)
    requires h.l0 + 5 == M26 * c0 + g0 && h.l1 + c0 == M26 * c1 + g1
    requires h.l2 + c1 == M26 * c2 + g2 && h.l3 + c2 == M26 * c3 + g3
    ensures Weigh(g0, g1, g2, g3, h.l4 + c3 - M26) == h.Value() - P
  {
  }

  /** `compute h + -p`: the top limb wraps around exactly when h is below 2^130 - 5. */
  method SubtractP(h: Limbs) returns (g: Limbs)
    requires h.l0 < M26 && h.l1 < M26 && h.l2 < M26 && h.l3 < M26 && h.l4 < M26
    ensures h.Value() < P ==> g.l4 >= 0x8000_0000
    ensures h.Value() >= P ==> g.Value() == h.Value() - P
    ensures h.Value() >= P ==> g.l0 < M26 && g.l1 < M26 && g.l2 < M26 && g.l3 < M26 && g.l4 < M26
  {
    var g0: u32 := h.l0 + 5; var c: u32 := g0 / M26; g0 := g0 % M26;
    ghost var c0 := c;
    var g1: u32 := h.l1 + c; c := g1 / M26; g1 := g1 % M26;
    ghost var c1 := c;
    var g2: u32 := h.l2 + c; c := g2 / M26; g2 := g2 % M26;
    ghost var c2 := c;
    var g3: u32 := h.l3 + c; c := g3 / M26; g3 := g3 % M26;
    var g4: u32 := (h.l4 + c - M26) % TWO32;
    ghost var top := h.l4 + c - M26;
    TopWraps(top);
    DifferenceWeighed(h, g0, g1, g2, g3, c0, c1, c2, c);
    TopLimbSign(h.Value(), g0, g1, g2, g3, top);
    g := Limbs(g0, g1, g2, g3, g4);
    hide Weigh;
  }

  lemma TopWraps(top: int)
    requires 0 <= top + M26 && top < M26
    ensures top % TWO32 == if top < 0 then top + TWO32 else top
  {
  }

  method BorrowMask(g4: u32) returns (mask: u32)
    ensures mask == if g4 >= 0x8000_0000 then 0 else 0xffff_ffff
  {
    mask := (g4 / 0x8000_0000 - 1) % TWO32;
  }

  /** Subtract and select: the unique representative below 2^130 - 5. */
  method Canonical(h: Limbs) returns (s: Limbs)
    requires h.l0 < M26 && h.l1 < M26 && h.l2 < M26 && h.l3 < M26 && h.l4 < M26
    ensures s.l0 < M26 && s.l1 < M26 && s.l2 < M26 && s.l3 < M26 && s.l4 < M26
    ensures s.Value() == h.Value() % P
  {
    var g := SubtractP(h);
    var mask := BorrowMask(g.l4);
    s := MaskedSelect(h, g, mask);
    ReducedOnce(h.Value(), s.Value());
  }

  /** The sign of the borrow out of the top limb decides whether h is below 2^130 - 5. */
  lemma TopLimbSign(v: nat, g0: u32, g1: u32, g2: u32, g3: u32, top: int)
    requires g0 < M26 && g1 < M26 && g2 < M26 && g3 < M26
    requires Weigh(g0, g1, g2, g3, top) == v - P
    ensures top < 0 <==> v < P
  {
  }

  lemma ReducedOnce(v: nat, s: nat)
    requires v < 2 * P && s == if v < P then v else v - P
    ensures s == v % P
  {
    ModUnique(v, P, if v < P then 0 else 1, s);
  }

  /** `(low >> a) | (high << b)` truncated to 32 bits, for disjoint halves; t is 2^b
      and m the remaining 2^(32-b). */
  lemma Join(low: u32, high: u32, b: nat, t: nat, m: nat)
    requires t == Pow2(b) && m * t == TWO32 && m > 0 && low < t
    ensures Or(low, high * t % TWO32) == low + high % m * t
  {
    SplitShift(m, high / m, high % m, t);
    ModUnique(high * t, TWO32, high / m, high % m * t);
    OrDisjoint(low, high % m, b);
  }

  lemma SplitShift(m: nat, q: nat, r: nat, t: nat)
    requires m * t == TWO32 && r < m
    ensures (m * q + r) * t == TWO32 * q + r * t
    ensures r * t < TWO32 || t == 0
  {
    assert (m * q + r) * t == (m * t) * q + r * t;
    MulBound(r, t, m - 1, t);
    assert (m - 1) * t == TWO32 - t;
  }

  lemma WordsOfLimbs(h: Limbs, w: Words)
    requires w.w0 == h.l0 + h.l1 % 0x40 * M26
    requires w.w1 == h.l1 / 0x40 + h.l2 % 0x1000 * 0x10_0000
    requires w.w2 == h.l2 / 0x1000 + h.l3 % 0x4_0000 * 0x4000
    requires w.w3 == h.l3 / 0x4_0000 + h.l4 % 0x100_0000 * 0x100
    ensures w.Value() == h.Value() % TWO128
  {
    assert h.Value() == w.Value() + TWO128 * (h.l4 / 0x100_0000);
    ModUnique(h.Value(), TWO128, h.l4 / 0x100_0000, w.Value());
  }

  /** `h = h % (2^128)`: five 26-bit limbs become four 32-bit words. */
  method Repack(h: Limbs) returns (w: Words)
    requires h.l0 < M26 && h.l1 < M26 && h.l2 < M26 && h.l3 < M26 && h.l4 < M26
    ensures w.Value() == h.Value() % TWO128
  {
    Pow2Values();
    Join(h.l0, h.l1, 26, M26, 0x40);
    Join(h.l1 / 0x40, h.l2, 20, 0x10_0000, 0x1000);
    Join(h.l2 / 0x1000, h.l3, 14, 0x4000, 0x4_0000);
    Join(h.l3 / 0x4_0000, h.l4, 8, 0x100, 0x100_0000);
    var h0: u32 := Or(h.l0, h.l1 * 0x400_0000 % TWO32);
    var h1: u32 := Or(h.l1 / 0x40, h.l2 * 0x10_0000 % TWO32);
    var h2: u32 := Or(h.l2 / 0x1000, h.l3 * 0x4000 % TWO32);
    var h3: u32 := Or(h.l3 / 0x4_0000, h.l4 * 0x100 % TWO32);
    w := Words(h0, h1, h2, h3);
    WordsOfLimbs(h, w);
  }

  /** `mac = (h + pad) % (2^128)`. */
  method AddPad(h: Words, pad: Words) returns (m: Words)
    ensures m.Value() == (h.Value() + pad.Value()) % TWO128
  {
    var f: u64 := h.w0 + pad.w0; var h0: u32 := f % TWO32;
    f := h.w1 + pad.w1 + f / TWO32; var h1: u32 := f % TWO32;
    f := h.w2 + pad.w2 + f / TWO32; var h2: u32 := f % TWO32;
    f := h.w3 + pad.w3 + f / TWO32; var h3: u32 := f % TWO32;
    m := Words(h0, h1, h2, h3);
    assert h.Value() + pad.Value() == m.Value() + TWO128 * (f / TWO32);
    ModUnique(h.Value() + pad.Value(), TWO128, f / TWO32, m.Value());
  }
}
