/** The streaming limb implementation of Poly1305 in poly1305-donna-32.h and
    poly1305-donna.c, proved to compute the tag of section 2.5 of RFC 7539 for every
    way of cutting the message into updates. A mask `& 0x3ffffff` is written as the
    remainder modulo 2^26 (`Bits.AndLowMask`); irregular masks stay conjunctions. */
module Poly1305Donna {
  import opened Bits
  import opened Bytes
  import opened Limbs26
  import opened Poly1305

  // Loading 16 bytes into limbs

  lemma FromLEWord(s: seq<byte>)
    requires |s| >= 4
    ensures FromLE(s) == Load32(s, 0) + 0x1_0000_0000 * FromLE(s[4..])
  {
    assert s == s[..4] + s[4..];
    FromLEAppend(s[..4], s[4..]);
    Load32IsFromLE(s, 0);
    assert Pow256(4) == 0x1_0000_0000;
  }

  lemma FromLEOf16(s: seq<byte>)
    requires |s| == 16
    ensures FromLE(s) == Load32(s, 0) + 0x1_0000_0000 * Load32(s, 4)
                         + 0x1_0000_0000_0000_0000 * Load32(s, 8) + 0x1_0000_0000_0000_0000_0000_0000 * Load32(s, 12)
  {
    var t, u, v := s[4..], s[8..], s[12..];
    assert t[4..] == u && u[4..] == v && v[4..] == [];
    FromLEWord(s); FromLEWord(t); FromLEWord(u); FromLEWord(v);
    assert Load32(t, 0) == Load32(s, 4) && Load32(u, 0) == Load32(s, 8) && Load32(v, 0) == Load32(s, 12);
  }

  /** Dropping the low bits of the first byte and the high bits of the last byte of a
      loaded word. */
  lemma LoadSlice0(a: byte, b: byte, c: byte, d: byte)
    ensures (a as int + 0x100 * b as int + 0x1_0000 * c as int + 0x100_0000 * d as int) % M26
         == a as int + 0x100 * b as int + 0x1_0000 * c as int + 0x100_0000 * (d as int % 4)
  {
    ModUnique(a as int + 0x100 * b as int + 0x1_0000 * c as int + 0x100_0000 * d as int, M26, d as int / 4,
              a as int + 0x100 * b as int + 0x1_0000 * c as int + 0x100_0000 * (d as int % 4));
  }

  lemma LoadSlice2(a: byte, b: byte, c: byte, d: byte)
    ensures (a as int + 0x100 * b as int + 0x1_0000 * c as int + 0x100_0000 * d as int) / 4
         == a as int / 4 + 0x40 * b as int + 0x4000 * c as int + 0x40_0000 * d as int
    ensures (a as int + 0x100 * b as int + 0x1_0000 * c as int + 0x100_0000 * d as int) / 4 % M26
         == a as int / 4 + 0x40 * b as int + 0x4000 * c as int + 0x40_0000 * (d as int % 16)
  {
    var x := a as int + 0x100 * b as int + 0x1_0000 * c as int + 0x100_0000 * d as int;
    var y := a as int / 4 + 0x40 * b as int + 0x4000 * c as int + 0x40_0000 * d as int;
    ModUnique(x, 4, y, a as int % 4);
    ModUnique(y, M26, d as int / 16, a as int / 4 + 0x40 * b as int + 0x4000 * c as int + 0x40_0000 * (d as int % 16));
  }

  lemma LoadSlice4(a: byte, b: byte, c: byte, d: byte)
    ensures (a as int + 0x100 * b as int + 0x1_0000 * c as int + 0x100_0000 * d as int) / 16
         == a as int / 16 + 0x10 * b as int + 0x1000 * c as int + 0x10_0000 * d as int
    ensures (a as int + 0x100 * b as int + 0x1_0000 * c as int + 0x100_0000 * d as int) / 16 % M26
         == a as int / 16 + 0x10 * b as int + 0x1000 * c as int + 0x10_0000 * (d as int % 64)
  {
    var x := a as int + 0x100 * b as int + 0x1_0000 * c as int + 0x100_0000 * d as int;
    var y := a as int / 16 + 0x10 * b as int + 0x1000 * c as int + 0x10_0000 * d as int;
    ModUnique(x, 16, y, a as int % 16);
    ModUnique(y, M26, d as int / 64, a as int / 16 + 0x10 * b as int + 0x1000 * c as int + 0x10_0000 * (d as int % 64));
  }

  lemma LoadSlice6(a: byte, b: byte, c: byte, d: byte)
    ensures (a as int + 0x100 * b as int + 0x1_0000 * c as int + 0x100_0000 * d as int) / 64
         == a as int / 64 + 4 * b as int + 0x400 * c as int + 0x4_0000 * d as int
    ensures (a as int + 0x100 * b as int + 0x1_0000 * c as int + 0x100_0000 * d as int) / 64 % M26
         == a as int / 64 + 4 * b as int + 0x400 * c as int + 0x4_0000 * (d as int % 256)
  {
    var x := a as int + 0x100 * b as int + 0x1_0000 * c as int + 0x100_0000 * d as int;
    var y := a as int / 64 + 4 * b as int + 0x400 * c as int + 0x4_0000 * d as int;
    ModUnique(x, 64, y, a as int % 64);
    ModUnique(y, M26, d as int / 256, a as int / 64 + 4 * b as int + 0x400 * c as int + 0x4_0000 * (d as int % 256));
  }

  lemma LoadSlice8(a: byte, b: byte, c: byte, d: byte)
    ensures (a as int + 0x100 * b as int + 0x1_0000 * c as int + 0x100_0000 * d as int) / 256
         == b as int + 0x100 * c as int + 0x1_0000 * d as int
  {
    ModUnique(a as int + 0x100 * b as int + 0x1_0000 * c as int + 0x100_0000 * d as int, 256,
              b as int + 0x100 * c as int + 0x1_0000 * d as int, a);
  }

  lemma RegroupBytes(b0: int, b1: int, b2: int, b3: int, b4: int, b5: int, b6: int, b7: int, b8: int, b9: int,
                     b10: int, b11: int, b12: int, b13: int, b14: int, b15: int)
    ensures Weigh(b0 + 0x100 * b1 + 0x1_0000 * b2 + 0x100_0000 * (b3 % 4),
                  b3 / 4 + 0x40 * b4 + 0x4000 * b5 + 0x40_0000 * (b6 % 16),
                  b6 / 16 + 0x10 * b7 + 0x1000 * b8 + 0x10_0000 * (b9 % 64),
                  b9 / 64 + 4 * b10 + 0x400 * b11 + 0x4_0000 * b12,
                  b13 + 0x100 * b14 + 0x1_0000 * b15)
         == (b0 + 0x100 * b1 + 0x1_0000 * b2 + 0x100_0000 * b3)
            + 0x1_0000_0000 * (b4 + 0x100 * b5 + 0x1_0000 * b6 + 0x100_0000 * b7)
            + 0x1_0000_0000_0000_0000 * (b8 + 0x100 * b9 + 0x1_0000 * b10 + 0x100_0000 * b11)
            + 0x1_0000_0000_0000_0000_0000_0000 * (b12 + 0x100 * b13 + 0x1_0000 * b14 + 0x100_0000 * b15)
  {
  }

  lemma WeighSlices(s: seq<byte>, t0: int, t1: int, t2: int, t3: int, t4: int)
    requires |s| == 16
    requires t0 == s[0] as int + 0x100 * s[1] as int + 0x1_0000 * s[2] as int + 0x100_0000 * (s[3] as int % 4)
    requires t1 == s[3] as int / 4 + 0x40 * s[4] as int + 0x4000 * s[5] as int + 0x40_0000 * (s[6] as int % 16)
    requires t2 == s[6] as int / 16 + 0x10 * s[7] as int + 0x1000 * s[8] as int + 0x10_0000 * (s[9] as int % 64)
    requires t3 == s[9] as int / 64 + 4 * s[10] as int + 0x400 * s[11] as int + 0x4_0000 * s[12] as int
    requires t4 == s[13] as int + 0x100 * s[14] as int + 0x1_0000 * s[15] as int
    ensures Weigh(t0, t1, t2, t3, t4) == FromLE(s)
  {
    FromLEOf16(s);
    RegroupBytes(s[0], s[1], s[2], s[3], s[4], s[5], s[6], s[7], s[8], s[9], s[10], s[11], s[12], s[13], s[14], s[15]);
  }

  lemma LoadUnaligned(s: seq<byte>)
    requires |s| >= 16
    ensures Load32(s, 0) % M26 == s[0] as int + 0x100 * s[1] as int + 0x1_0000 * s[2] as int
            + 0x100_0000 * (s[3] as int % 4)
    ensures Load32(s, 3) / 4 == s[3] as int / 4 + 0x40 * s[4] as int + 0x4000 * s[5] as int + 0x40_0000 * s[6] as int
    ensures Load32(s, 3) / 4 % M26 == s[3] as int / 4 + 0x40 * s[4] as int + 0x4000 * s[5] as int
            + 0x40_0000 * (s[6] as int % 16)
    ensures Load32(s, 6) / 16 == s[6] as int / 16 + 0x10 * s[7] as int + 0x1000 * s[8] as int + 0x10_0000 * s[9] as int
    ensures Load32(s, 6) / 16 % M26 == s[6] as int / 16 + 0x10 * s[7] as int + 0x1000 * s[8] as int
            + 0x10_0000 * (s[9] as int % 64)
    ensures Load32(s, 9) / 64 == s[9] as int / 64 + 4 * s[10] as int + 0x400 * s[11] as int + 0x4_0000 * s[12] as int
    ensures Load32(s, 9) / 64 % M26 == s[9] as int / 64 + 4 * s[10] as int + 0x400 * s[11] as int
            + 0x4_0000 * (s[12] as int % 256)
    ensures Load32(s, 12) / 256 == s[13] as int + 0x100 * s[14] as int + 0x1_0000 * s[15] as int
  {
    LoadSlice0(s[0], s[1], s[2], s[3]);
    LoadSlice2(s[3], s[4], s[5], s[6]);
    LoadSlice4(s[6], s[7], s[8], s[9]);
    LoadSlice6(s[9], s[10], s[11], s[12]);
    LoadSlice8(s[12], s[13], s[14], s[15]);
  }

  /** The five unaligned loads of poly1305_blocks together hold the block. */
  lemma BlockLimbs(s: seq<byte>)
    requires |s| == 16
    ensures Weigh(Load32(s, 0) % M26, Load32(s, 3) / 4 % M26, Load32(s, 6) / 16 % M26,
                  Load32(s, 9) / 64 % M26, Load32(s, 12) / 256) == FromLE(s)
  {
    LoadUnaligned(s);
    WeighSlices(s, Load32(s, 0) % M26, Load32(s, 3) / 4 % M26, Load32(s, 6) / 16 % M26,
                Load32(s, 9) / 64 % M26, Load32(s, 12) / 256);
  }

  /** A mask of n ones above a gap above l ones; pk, pn and pl are 2^k, 2^n and 2^l. */
  lemma MaskWithGap(x: nat, mask: nat, n: nat, pn: nat, k: nat, pk: nat, l: nat, pl: nat, gap: nat)
    requires pn == Pow2(n) && pk == Pow2(k) && pl == Pow2(l)
    requires gap > 0 && gap * pl == pk && pl <= pk
    requires mask == (pn - 1) * pk + (pl - 1)
    ensures And(x, mask) == Shr(x, k) % pn * pk + x % pl
  {
    AndSplit(x, mask, pn - 1, pl - 1, k);
    AndLowMask(Shr(x, k), n);
    AndLowMask(x % pk, l);
    ModMod(x, pl, gap);
  }

  lemma ModMod(x: nat, a: nat, b: nat)
    requires a > 0 && b > 0 && b * a > 0
    ensures (x % (b * a)) % a == x % a
  {
    var y, q := x % (b * a), x / (b * a);
    assert x == y + a * (b * q) by {
      assert x == (b * a) * q + y;
      MulAssoc(a, b, q);
    }
    ModAddMultiple(y, a, b * q);
  }

  // The clamping masks of poly1305_init

  lemma ClampMask1(x: nat)
    ensures And(x, 0x3ff_ff03) == x / 0x100 % 0x4_0000 * 0x100 + x % 4
  {
    Pow2Values();
    assert Pow2(2) == 4;
    MaskWithGap(x, 0x3ff_ff03, 18, 0x4_0000, 8, 0x100, 2, 4, 0x40);
    DivPow2(x, 8);
  }

  lemma ClampMask2(x: nat)
    ensures And(x, 0x3ff_c0ff) == x / 0x4000 % 0x1000 * 0x4000 + x % 0x100
  {
    Pow2Values();
    MaskWithGap(x, 0x3ff_c0ff, 12, 0x1000, 14, 0x4000, 8, 0x100, 0x40);
    DivPow2(x, 14);
  }

  lemma ClampMask3(x: nat)
    ensures And(x, 0x3f0_3fff) == x / 0x10_0000 % 0x40 * 0x10_0000 + x % 0x4000
  {
    Pow2Values();
    MaskWithGap(x, 0x3f0_3fff, 6, 0x40, 20, 0x10_0000, 14, 0x4000, 0x40);
    DivPow2(x, 20);
  }

  lemma ClampLimb1(a: byte, b: byte, c: byte, d: byte, x: nat)
    requires x == a as int / 4 + 0x40 * b as int + 0x4000 * c as int + 0x40_0000 * d as int
    ensures x / 0x100 % 0x4_0000 * 0x100 + x % 4
         == (a as int % 16) / 4 + 0x40 * (b as int - b as int % 4) + 0x4000 * c as int + 0x40_0000 * (d as int % 16)
  {
    var high := b as int / 4 + 0x40 * c as int + 0x4000 * d as int;
    ModUnique(x, 0x100, high, a as int / 4 + 0x40 * (b as int % 4));
    ModUnique(high, 0x4_0000, d as int / 16, b as int / 4 + 0x40 * c as int + 0x4000 * (d as int % 16));
    assert a as int / 4 == 4 * (a as int / 16) + (a as int % 16) / 4;
    ModUnique(x, 4, a as int / 16 + 0x10 * b as int + 0x1000 * c as int + 0x10_0000 * d as int, (a as int % 16) / 4);
  }

  lemma ClampLimb2(a: byte, b: byte, c: byte, d: byte, x: nat)
    requires x == a as int / 16 + 0x10 * b as int + 0x1000 * c as int + 0x10_0000 * d as int
    ensures x / 0x4000 % 0x1000 * 0x4000 + x % 0x100
         == a as int / 16 + 0x10 * (b as int % 16) + 0x1000 * (c as int - c as int % 4) + 0x10_0000 * (d as int % 64)
  {
    var high := c as int / 4 + 0x40 * d as int;
    ModUnique(x, 0x4000, high, a as int / 16 + 0x10 * b as int + 0x1000 * (c as int % 4));
    ModUnique(high, 0x1000, d as int / 64, c as int / 4 + 0x40 * (d as int % 64));
    ModUnique(x, 0x100, b as int / 16 + 0x10 * c as int + 0x1000 * d as int, a as int / 16 + 0x10 * (b as int % 16));
  }

  lemma ClampLimb3(a: byte, b: byte, c: byte, d: byte, x: nat)
    requires x == a as int / 64 + 4 * b as int + 0x400 * c as int + 0x4_0000 * d as int
    ensures x / 0x10_0000 % 0x40 * 0x10_0000 + x % 0x4000
         == a as int / 64 + 4 * b as int + 0x400 * (c as int % 16) + 0x4_0000 * (d as int - d as int % 4)
  {
    ModUnique(x, 0x10_0000, d as int / 4, a as int / 64 + 4 * b as int + 0x400 * c as int + 0x4_0000 * (d as int % 4));
    ModUnique(x, 0x4000, c as int / 16 + 0x10 * d as int, a as int / 64 + 4 * b as int + 0x400 * (c as int % 16));
  }

  lemma ClampLimb4(b: byte, c: byte, d: byte, x: nat)
    requires x == b as int + 0x100 * c as int + 0x1_0000 * d as int
    ensures x % 0x10_0000 == b as int + 0x100 * c as int + 0x1_0000 * (d as int % 16)
  {
    ModUnique(x, 0x10_0000, d as int / 16, b as int + 0x100 * c as int + 0x1_0000 * (d as int % 16));
  }

  lemma ClampedSlices(key: seq<byte>, r: Limbs)
    requires |key| == 32
    requires r.l0 == key[0] as int + 0x100 * key[1] as int + 0x1_0000 * key[2] as int + 0x100_0000 * (key[3] as int % 4)
    requires r.l1 == (key[3] as int % 16) / 4 + 0x40 * (key[4] as int - key[4] as int % 4) + 0x4000 * key[5] as int
             + 0x40_0000 * (key[6] as int % 16)
    requires r.l2 == key[6] as int / 16 + 0x10 * (key[7] as int % 16) + 0x1000 * (key[8] as int - key[8] as int % 4)
             + 0x10_0000 * (key[9] as int % 64)
    requires r.l3 == key[9] as int / 64 + 4 * key[10] as int + 0x400 * (key[11] as int % 16)
             + 0x4_0000 * (key[12] as int - key[12] as int % 4)
    requires r.l4 == key[13] as int + 0x100 * key[14] as int + 0x1_0000 * (key[15] as int % 16)
    ensures r.Value() == ClampedR(key)
  {
    var c := ClampedKey(key);
    assert c[3] == key[3] % 16 && c[7] == key[7] % 16 && c[11] == key[11] % 16 && c[15] == key[15] % 16;
    assert c[4] == key[4] - key[4] % 4 && c[8] == key[8] - key[8] % 4 && c[12] == key[12] - key[12] % 4;
    assert c[0] == key[0] && c[1] == key[1] && c[2] == key[2] && c[5] == key[5] && c[6] == key[6];
    assert c[9] == key[9] && c[10] == key[10] && c[13] == key[13] && c[14] == key[14];
    assert key[3] as int % 16 % 4 == key[3] as int % 4;
    WeighSlices(c, r.l0, r.l1, r.l2, r.l3, r.l4);
  }

  lemma ClampedBounds(key: seq<byte>, r: Limbs)
    requires |key| == 32
    requires r.l0 == key[0] as int + 0x100 * key[1] as int + 0x1_0000 * key[2] as int + 0x100_0000 * (key[3] as int % 4)
    requires r.l1 == (key[3] as int % 16) / 4 + 0x40 * (key[4] as int - key[4] as int % 4) + 0x4000 * key[5] as int
             + 0x40_0000 * (key[6] as int % 16)
    requires r.l2 == key[6] as int / 16 + 0x10 * (key[7] as int % 16) + 0x1000 * (key[8] as int - key[8] as int % 4)
             + 0x10_0000 * (key[9] as int % 64)
    requires r.l3 == key[9] as int / 64 + 4 * key[10] as int + 0x400 * (key[11] as int % 16)
             + 0x4_0000 * (key[12] as int - key[12] as int % 4)
    requires r.l4 == key[13] as int + 0x100 * key[14] as int + 0x1_0000 * (key[15] as int % 16)
    ensures r.Clamped()
  {
  }

  /** The masked loads of poly1305_init are the limbs of the clamped multiplier. */
  method LoadClamped(key: seq<byte>) returns (r: Limbs)
    requires |key| == 32
    ensures r.Clamped() && r.Value() == ClampedR(key)
  {
    LoadUnaligned(key);
    var x1: u32, x2: u32, x3: u32, x4: u32
      := Load32(key, 3) / 4, Load32(key, 6) / 16, Load32(key, 9) / 64, Load32(key, 12) / 256;
    Pow2Values();
    ClampMask1(x1); ClampMask2(x2); ClampMask3(x3); AndLowMask(x4, 20);
    ClampLimb1(key[3], key[4], key[5], key[6], x1);
    ClampLimb2(key[6], key[7], key[8], key[9], x2);
    ClampLimb3(key[9], key[10], key[11], key[12], x3);
    ClampLimb4(key[13], key[14], key[15], x4);
    r := Limbs(Load32(key, 0) % M26, And(x1, 0x3ff_ff03), And(x2, 0x3ff_c0ff), And(x3, 0x3f0_3fff),
               And(x4, 0x00f_ffff));
    ClampedSlices(key, r);
    ClampedBounds(key, r);
  }

  // Storing words

  lemma WordsToLE(w: Words)
    ensures ToLE(16, w.Value()) == ToLE(4, w.w0) + ToLE(4, w.w1) + ToLE(4, w.w2) + ToLE(4, w.w3)
  {
    var a, b, c, d := ToLE(4, w.w0), ToLE(4, w.w1), ToLE(4, w.w2), ToLE(4, w.w3);
    assert Pow256(4) == 0x1_0000_0000;
    DecodeEncode(4, w.w0); DecodeEncode(4, w.w1); DecodeEncode(4, w.w2); DecodeEncode(4, w.w3);
    var s := a + b + c + d;
    assert s == a + (b + (c + d));
    FromLEAppend(c, d);
    FromLEAppend(b, c + d);
    FromLEAppend(a, b + (c + d));
    EncodeDecode(s);
  }

  lemma PadWords(key: seq<byte>)
    requires |key| == 32
    ensures Words(Load32(key, 16), Load32(key, 20), Load32(key, 24), Load32(key, 28)).Value() == FromLE(key[16..])
  {
    FromLEOf16(key[16..]);
  }

  // Adding one block

  lemma OrHighBit(x: u32)
    requires x < 0x100_0000
    ensures Or(x, 0x100_0000) == x + 0x100_0000 && Or(x, 0) == x
  {
    Pow2Values();
    OrDisjoint(x, 1, 24);
    OrZero(x);
  }

  /** `h += m[i]`. */
  method AddBlock(h: Limbs, s: seq<byte>, hibit: u32) returns (a: Limbs)
    requires h.Carried() && |s| == 16 && (hibit == 0 || hibit == 0x100_0000)
    ensures a.Loaded()
    ensures a.Value() == h.Value() + FromLE(s) + 0x100_0000_0000_0000_0000_0000_0000 * hibit
  {
    BlockLimbs(s);
    var t0: u32, t1: u32, t2: u32, t3: u32, t4: u32
      := Load32(s, 0) % M26, Load32(s, 3) / 4 % M26, Load32(s, 6) / 16 % M26, Load32(s, 9) / 64 % M26,
         Load32(s, 12) / 256;
    OrHighBit(t4);
    a := Limbs(h.l0 + t0, h.l1 + t1, h.l2 + t2, h.l3 + t3, h.l4 + Or(t4, hibit));
  }

  lemma TimesRemainder(x: int, y: int, r: int)
    requires x % P == y % P
    ensures (r * x) % P == (r * y) % P
  {
    ModTimes(x, r);
    ModTimes(y, r);
  }

  lemma StepOfRemainder(r: nat, v: nat, c: nat, w: nat)
    requires w == v + c
    ensures Step(r, v % P, c) == (r * w) % P
  {
    ModPlus(v, c);
    TimesRemainder(v % P + c, v + c, r);
  }

  /** The limbs h stand for the whole blocks `done` under the clamped half of the key. */
  ghost predicate Stands(h: Limbs, r: Limbs, key: seq<byte>, done: seq<byte>)
    requires |key| == 32
  {
    && r.Clamped() && r.Value() == ClampedR(key)
    && h.Carried() && |done| % 16 == 0
    && h.Value() % P == Absorb(r.Value(), 0, done, TWO128)
  }

  lemma StandsAppend(h: Limbs, g: Limbs, r: Limbs, key: seq<byte>, done: seq<byte>, blocks: seq<byte>)
    requires |key| == 32 && Stands(h, r, key, done) && |blocks| % 16 == 0 && g.Carried()
    requires g.Value() % P == Absorb(r.Value(), h.Value() % P, blocks, TWO128)
    ensures Stands(g, r, key, done + blocks)
  {
    hide Limbs.Value, Absorb, FromLE, ClampedR;
    AbsorbAppend(r.Value(), 0, done, blocks, TWO128);
    assert |done + blocks| == |done| + |blocks|;
  }

  lemma StandsEmpty(r: Limbs, key: seq<byte>)
    requires |key| == 32 && r.Clamped() && r.Value() == ClampedR(key)
    ensures Stands(ZERO, r, key, [])
  {
    ZeroValue();
    hide ClampedR, Absorb, FromLE, Limbs.Value;
    AbsorbNothing(r.Value(), 0, TWO128);
  }

  lemma ZeroValue()
    ensures ZERO.Value() == 0 && ZERO.Carried() && 0 % P == 0
  {
  }

  /** One pass of the block loop absorbs one block. */
  lemma LoopPass(r: nat, v: nat, w: nat, u: nat, start: nat, m: seq<byte>, i: nat, high: nat)
    requires i + 16 <= |m| && i % 16 == 0
    requires v % P == Absorb(r, start, m[..i], high)
    requires w == v + FromLE(m[i..i + 16]) + high
    requires u % P == (r * w) % P
    ensures u % P == Absorb(r, start, m[..i + 16], high)
  {
    hide FromLE, Absorb, Step;
    var block := m[i..i + 16];
    var c := FromLE(block) + high;
    assert m[..i + 16] == m[..i] + block;
    AbsorbAppend(r, start, m[..i], block, high);
    AbsorbBlock(r, v % P, block, high);
    StepOfRemainder(r, v, c, w);
  }

  /** From whole blocks, a padded last block and the key's second half to the tag. */
  lemma TagOf(key: seq<byte>, r: Limbs, h: Limbs, done: seq<byte>, rest: seq<byte>)
    requires |key| == 32 && |rest| < 16 && |done| % 16 == 0 && r.Value() == ClampedR(key)
    requires var acc := Absorb(r.Value(), 0, done, TWO128);
             h.Value() % P == if rest == [] then acc else Step(r.Value(), acc, Coefficient(rest))
    ensures Tag(key, done + rest) == ToLE(16, (h.Value() % P + FromLE(key[16..])) % TWO128)
  {
    hide Limbs.Value, Step, Absorb, Coefficient, ClampedR, FromLE;
    HornerOfRest(r.Value(), done, rest);
    HornerEvaluates(r.Value(), 0, done + rest);
  }

  class Poly1305State {
    var r: Limbs
    var h: Limbs
    var pad: Words
    var leftover: nat
    const buffer: array<byte>
    var final: bool
    // The one-time key and everything fed so far
    ghost var key: seq<byte>
    ghost var fed: seq<byte>

    ghost predicate Valid()
      reads this, buffer
    {
      && buffer.Length == 16 && leftover < 16 && leftover <= |fed| && !final
      && |key| == 32 && pad.Value() == FromLE(key[16..])
      && Stands(h, r, key, fed[..|fed| - leftover])
      && buffer[..leftover] == fed[|fed| - leftover..]
    }

    constructor ()
      ensures fresh(buffer) && buffer.Length == 16
    {
      buffer := new byte[16];
      r, h, pad, leftover, final, key, fed := ZERO, ZERO, Words(0, 0, 0, 0), 0, false, [], [];
    }

    /** poly1305_init */
    method Init(k: seq<byte>)
      requires |k| == 32 && buffer.Length == 16
      modifies this
      ensures Valid() && key == k && fed == []
    {
      hide Stands, FromLE, Words.Value, Limbs.Value, ClampedR, Load32;
      r := LoadClamped(k);
      StandsEmpty(r, k);
      PadWords(k);
      h := ZERO;
      pad := Words(Load32(k, 16), Load32(k, 20), Load32(k, 24), Load32(k, 28));
      leftover, final := 0, false;
      key, fed := k, [];
    }

    /** poly1305_blocks */
    method Blocks(m: seq<byte>)
      requires r.Clamped() && h.Carried() && |m| % 16 == 0
      modifies this`h
      ensures h.Carried()
      ensures h.Value() % P == Absorb(r.Value(), old(h.Value()) % P, m, if final then 0 else TWO128)
    {
      hide Limbs.Value, Absorb, FromLE;
      var hibit: u32 := if final then 0 else 0x100_0000;
      ghost var high := if final then 0 else TWO128;
      ghost var start := h.Value() % P;
      var i := 0;
      AbsorbNothing(r.Value(), start, high);
      while |m| - i >= 16
        invariant i <= |m| && i % 16 == 0 && h.Carried()
        invariant h.Value() % P == Absorb(r.Value(), start, m[..i], high)
      {
        var a := AddBlock(h, m[i..i + 16], hibit);
        var g := MultiplyReduce(a, r);
        LoopPass(r.Value(), h.Value(), a.Value(), g.Value(), start, m, i, high);
        h := g;
        i := i + 16;
      }
      assert m[..i] == m;
    }

    /** poly1305_update */
    method Update(m: seq<byte>)
      requires Valid()
      modifies this`h, this`leftover, this`fed, buffer
      ensures Valid() && fed == old(fed) + m
    {
      var pos := 0;
      ghost var done, before := fed, fed;
      Disassemble();
      hide *;
      CutAt(m, 0);
      if leftover != 0 {
        pos, done := TopUp(m);
      }
      CutAt(m, pos);
      AppendAssoc(before, m[..pos], m[pos..]);
      if leftover != 0 {
        fed := fed + m;
        Assemble(done, buffer[..leftover]);
      } else {
        UpdateRest(m[pos..], done, before + m);
      }
    }

    method UpdateRest(rest: seq<byte>, ghost done: seq<byte>, ghost all: seq<byte>)
      requires buffer.Length == 16 && leftover == 0 && !final && |key| == 32 && pad.Value() == FromLE(key[16..])
      requires Stands(h, r, key, done) && all == done + rest
      modifies this`h, this`leftover, this`fed, buffer
      ensures Valid() && fed == all
    {
      hide *;
      UpdateAligned(rest, done);
      CutAt(rest, |rest| - leftover);
      AppendAssoc(done, rest[..|rest| - leftover], rest[|rest| - leftover..]);
      fed := all;
      Assemble(done + rest[..|rest| - leftover], rest[|rest| - leftover..]);
    }

    /** `handle leftover`: fill the buffer and absorb it once it is full. */
    method TopUp(m: seq<byte>) returns (pos: nat, ghost done: seq<byte>)
      requires Valid() && leftover != 0
      modifies this`h, this`leftover, buffer
      ensures pos <= |m| && leftover < 16 && Stands(h, r, key, done)
      ensures leftover == 0 ==> done == fed + m[..pos]
      ensures leftover != 0 ==> done + buffer[..leftover] == fed + m
    {
      ghost var held := buffer[..leftover];
      done := fed[..|fed| - leftover];
      Disassemble();
      CutAt(fed, |fed| - leftover);
      hide *;
      var want := 16 - leftover;
      if want > |m| { want := |m|; }
      FillBuffer(m[..want]);
      pos := want;
      CutAt(m, want);
      AppendAssoc(done, held, m[..want]);
      if leftover == 16 {
        CutAt(buffer[..], 16);
        done := AbsorbBlocks(buffer[..], done);
        leftover := 0;
      }
    }

    lemma Disassemble()
      requires Valid()
      ensures buffer.Length == 16 && leftover < 16 && leftover <= |fed| && !final && |key| == 32
      ensures pad.Value() == FromLE(key[16..])
      ensures Stands(h, r, key, fed[..|fed| - leftover]) && buffer[..leftover] == fed[|fed| - leftover..]
      ensures leftover == 0 ==> Stands(h, r, key, fed)
    {
      hide Stands, FromLE, Words.Value;
      assert leftover == 0 ==> fed[..|fed|] == fed;
    }

    /** The parts of the representation invariant. */
    lemma Assemble(done: seq<byte>, held: seq<byte>)
      requires buffer.Length == 16 && |held| == leftover < 16 && !final && |key| == 32
      requires pad.Value() == FromLE(key[16..]) && Stands(h, r, key, done)
      requires fed == done + held && buffer[..leftover] == held
      ensures Valid()
    {
      hide Stands, FromLE, Words.Value;
    }

    /** The rest of an update once the buffer is empty. */
    method UpdateAligned(m: seq<byte>, ghost done: seq<byte>)
      requires buffer.Length == 16 && leftover == 0 && !final && |key| == 32
      requires Stands(h, r, key, done)
      modifies this`h, this`leftover, buffer
      ensures leftover < 16 && leftover <= |m| && Stands(h, r, key, done + m[..|m| - leftover])
      ensures buffer[..leftover] == m[|m| - leftover..]
    {
      hide Stands, Limbs.Value, Absorb, FromLE;
      var want := 0;
      ghost var all := done;
      assert done == done + m[..0];
      if |m| >= 16 {
        want := |m| / 16 * 16;
        all := AbsorbBlocks(m[..want], done);
      }
      if |m| - want > 0 {
        FillBuffer(m[want..]);
      }
    }

    /** poly1305_blocks on blocks of the message proper. */
    method AbsorbBlocks(m: seq<byte>, ghost done: seq<byte>) returns (ghost more: seq<byte>)
      requires |key| == 32 && Stands(h, r, key, done) && |m| % 16 == 0 && !final
      modifies this`h
      ensures more == done + m && Stands(h, r, key, more)
    {
      hide Absorb, FromLE, ClampedR, Limbs.Value;
      ghost var before := h;
      Blocks(m);
      StandsAppend(before, h, r, key, done, m);
      more := done + m;
    }

    /** The byte loop `st->buffer[st->leftover + i] = m[i]`. */
    method FillBuffer(m: seq<byte>)
      requires buffer.Length == 16 && leftover + |m| <= 16
      modifies this`leftover, buffer
      ensures leftover == old(leftover) + |m|
      ensures buffer[..leftover] == old(buffer[..leftover]) + m
    {
      for i := 0 to |m|
        invariant leftover == old(leftover)
        invariant buffer[..leftover + i] == old(buffer[..leftover]) + m[..i]
      {
        buffer[leftover + i] := m[i];
        assert buffer[..leftover + i + 1] == buffer[..leftover + i] + [m[i]];
      }
      assert m[..|m|] == m;
      leftover := leftover + |m|;
    }

    /** poly1305_finish */
    method Finish(mac: array<byte>, off: nat)
      requires Valid() && off + 16 <= mac.Length && mac != buffer
      modifies this, buffer, mac
      ensures mac[..] == Splice(old(mac[..]), off, Tag(old(key), old(fed)))
      ensures r == h == ZERO && pad == Words(0, 0, 0, 0)
    {
      hide Stands, Limbs.Value, Absorb, FromLE, Words.Value, ClampedR, Step, Coefficient, Tag, ToLE, Zeros;
      ghost var done := fed[..|fed| - leftover];
      ghost var rest := fed[|fed| - leftover..];
      assert fed == done + rest;
      StandsBounds(h, r, key, done);
      if leftover != 0 {
        PadLast();
        final := true;
        Blocks(buffer[..]);
        AbsorbBlock(r.Value(), Absorb(r.Value(), 0, done, TWO128), buffer[..], 0);
        PaddedCoefficient(rest, buffer[..]);
      }
      TagOf(key, r, h, done, rest);
      var w := Reduce();
      ModPlus128(h.Value() % P, pad.Value());
      w := AddPad(w, pad);
      StoreTag(mac, off, w);
      h, r, pad := ZERO, ZERO, Words(0, 0, 0, 0);
    }

    /** The carries, the conditional subtraction and the repacking of poly1305_finish. */
    method Reduce() returns (w: Words)
      requires h.Carried()
      ensures w.Value() == h.Value() % P % TWO128
    {
      hide Limbs.Value, Words.Value;
      var n := FullCarry(h);
      ModAddMultiple(n.Value(), P, 1);
      n := Canonical(n);
      w := Repack(n);
    }

    /** `st->buffer[i++] = 1` and the zero fill up to the block size. */
    method PadLast()
      requires buffer.Length == 16 && leftover < 16
      modifies buffer
      ensures buffer[..] == old(buffer[..leftover]) + [1] + Zeros(15 - leftover)
    {
      buffer[leftover] := 1;
      for i := leftover + 1 to 16
        invariant buffer[..leftover + 1] == old(buffer[..leftover]) + [1]
        invariant forall j :: leftover < j < i ==> buffer[j] == 0
      {
        buffer[i] := 0;
      }
      assert buffer[..] == buffer[..leftover + 1] + buffer[leftover + 1..];
      assert buffer[leftover + 1..] == Zeros(15 - leftover);
    }
  }

  lemma StandsBounds(h: Limbs, r: Limbs, key: seq<byte>, done: seq<byte>)
    requires |key| == 32 && Stands(h, r, key, done)
    ensures r.Clamped() && h.Carried() && |done| % 16 == 0 && r.Value() == ClampedR(key)
    ensures h.Value() % P == Absorb(r.Value(), 0, done, TWO128)
  {
  }

  lemma AbsorbNothing(r: nat, acc: nat, high: nat)
    ensures Absorb(r, acc, [], high) == acc
  {
  }

  lemma AbsorbBlock(r: nat, acc: nat, block: seq<byte>, high: nat)
    requires |block| == 16
    ensures Absorb(r, acc, block, high) == Step(r, acc, FromLE(block) + high)
  {
    assert block[..16] == block && block[16..] == [];
  }

  /** The marker byte and the zero fill make the last block's number its coefficient. */
  lemma PaddedCoefficient(rest: seq<byte>, block: seq<byte>)
    requires |rest| < 16 && block == rest + [1] + Zeros(15 - |rest|)
    ensures FromLE(block) == Coefficient(rest)
  {
    var tail := [1] + Zeros(15 - |rest|);
    assert block == rest + tail;
    FromLEAppend(rest, tail);
    assert tail[1..] == Zeros(15 - |rest|);
    FromLEZeros(15 - |rest|);
  }

  lemma HornerOfRest(r: nat, done: seq<byte>, rest: seq<byte>)
    requires |done| % 16 == 0 && |rest| < 16
    ensures Horner(r, 0, done + rest)
         == (var acc := Absorb(r, 0, done, TWO128); if rest == [] then acc else Step(r, acc, Coefficient(rest)))
  {
    HornerSplit(r, 0, done, rest);
    if rest != [] { assert rest[..|rest|] == rest && rest[|rest|..] == []; }
  }

  lemma ModPlus128(x: int, y: int)
    ensures (x % TWO128 + y) % TWO128 == (x + y) % TWO128
  {
    ModAddMultiple(x % TWO128 + y, TWO128, x / TWO128);
  }

  method StoreTag(mac: array<byte>, off: nat, w: Words)
    requires off + 16 <= mac.Length
    modifies mac
    ensures mac[..] == Splice(old(mac[..]), off, ToLE(16, w.Value()))
  {
    WordsToLE(w);
    hide ToLE, Words.Value, Splice;
    ghost var before := mac[..];
    Store32(mac, off, w.w0);
    Store32(mac, off + 4, w.w1);
    SpliceAdjacent(before, off, ToLE(4, w.w0), ToLE(4, w.w1));
    Store32(mac, off + 8, w.w2);
    SpliceAdjacent(before, off, ToLE(4, w.w0) + ToLE(4, w.w1), ToLE(4, w.w2));
    Store32(mac, off + 12, w.w3);
    SpliceAdjacent(before, off, ToLE(4, w.w0) + ToLE(4, w.w1) + ToLE(4, w.w2), ToLE(4, w.w3));
  }
}
