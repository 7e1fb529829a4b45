/** Poly1305: section 2.5 of RFC 7539 as a polynomial evaluation, and the streaming
    limb implementation of poly1305-donna-32.h and poly1305-donna.c. */
module Poly1305 {
  import opened Bytes
  import opened Limbs26

  // The definition

  /** The clamping of the first half of the key: bytes 3, 7, 11 and 15 lose their top four
      bits, bytes 4, 8 and 12 their bottom two. */
  function ClampByte(i: nat, b: byte): byte {
    if i % 4 == 3 then b % 16 else if i % 4 == 0 && i > 0 then b - b % 4 else b
  }

  function ClampedKey(key: seq<byte>): seq<byte>
    requires |key| == 32
  {
    seq(16, i requires 0 <= i < 16 => ClampByte(i, key[i]))
  }

  function ClampedR(key: seq<byte>): nat
    requires |key| == 32
  {
    FromLE(ClampedKey(key))
  }

  function ChunkLength(m: seq<byte>): nat {
    if |m| < 16 then |m| else 16
  }

  /** A chunk of at most 16 bytes as a number with one more bit set above its last byte. */
  function Coefficient(chunk: seq<byte>): nat {
    FromLE(chunk) + Pow256(|chunk|)
  }

  function Power(r: nat, n: nat): nat {
    if n == 0 then 1 else r * Power(r, n - 1)
  }

  function Chunks(m: seq<byte>): nat {
    (|m| + 15) / 16
  }

  /** c1*r^q + c2*r^(q-1) + ... + cq*r^1 over the chunks c1..cq of the message. */
  function Evaluate(r: nat, m: seq<byte>): int
    decreases |m|
  {
    if m == [] then 0
    else Coefficient(m[..ChunkLength(m)]) * Power(r, Chunks(m)) + Evaluate(r, m[ChunkLength(m)..])
  }

  /** The Poly1305 tag of a message under a one-time key. */
  function Tag(key: seq<byte>, m: seq<byte>): (t: seq<byte>)
    requires |key| == 32
    ensures |t| == 16
  {
    ToLE(16, (Evaluate(ClampedR(key), m) % P + FromLE(key[16..])) % TWO128)
  }

  // Horner's rule

  function Step(r: nat, acc: nat, c: nat): nat {
    (r * (acc + c)) % P
  }

  function Horner(r: nat, acc: nat, m: seq<byte>): nat
    decreases |m|
  {
    if m == [] then acc
    else Horner(r, Step(r, acc, Coefficient(m[..ChunkLength(m)])), m[ChunkLength(m)..])
  }

  lemma ModTimes(x: int, y: int)
    ensures ((x % P) * y) % P == (x * y) % P
  {
    var q := x / P;
    assert x * y == (x % P) * y + P * (q * y) by {
      assert x == P * q + x % P;
      TimesSum(P * q, x % P, y);
      MulAssoc(P, q, y);
    }
    ModAddMultiple((x % P) * y, P, q * y);
  }

  lemma TimesSum(a: int, b: int, y: int)
    ensures (a + b) * y == a * y + b * y
  {
  }

  lemma ModPlus(x: int, y: int)
    ensures (x % P + y) % P == (x + y) % P
  {
    ModAddMultiple(x % P + y, P, x / P);
  }

  lemma PowerShift(r: nat, x: nat, n: nat)
    requires n > 0
    ensures (r * x) * Power(r, n - 1) == x * Power(r, n)
  {
    MulAssoc(x, r, Power(r, n - 1));
  }

  /** Horner's rule computes the polynomial of the definition. */
  lemma {:induction false} HornerEvaluates(r: nat, acc: nat, m: seq<byte>)
    requires acc < P
    ensures Horner(r, acc, m) == (acc * Power(r, Chunks(m)) + Evaluate(r, m)) % P
    decreases |m|
  {
    if m != [] {
      var k := ChunkLength(m);
      var c, rest := Coefficient(m[..k]), m[k..];
      var n := Chunks(m);
      var p := Power(r, n - 1);
      assert Chunks(rest) == n - 1;
      HornerEvaluates(r, Step(r, acc, c), rest);
      HornerStepValue(r, acc, c, n, Evaluate(r, rest));
    }
  }

  lemma HornerStepValue(r: nat, acc: nat, c: nat, n: nat, e: int)
    requires n > 0
    ensures (Step(r, acc, c) * Power(r, n - 1) + e) % P == (acc * Power(r, n) + (c * Power(r, n) + e)) % P
  {
    var p := Power(r, n - 1);
    ModTimes(r * (acc + c), p);
    ModPlus(Step(r, acc, c) * p, e);
    ModPlus((r * (acc + c)) * p, e);
    PowerShift(r, acc + c, n);
    TimesSum(acc, c, Power(r, n));
  }

  /** A whole number of 16-byte blocks, each with `high` added. */
  function Absorb(r: nat, acc: nat, m: seq<byte>, high: nat): nat
    decreases |m|
  {
    if |m| < 16 then acc
    else Absorb(r, Step(r, acc, FromLE(m[..16]) + high), m[16..], high)
  }

  /** Feeding a prefix of whole blocks first leaves the evaluation unchanged. */
  lemma {:induction false} HornerSplit(r: nat, acc: nat, a: seq<byte>, b: seq<byte>)
    requires |a| % 16 == 0
    ensures Horner(r, acc, a + b) == Horner(r, Absorb(r, acc, a, TWO128), b)
    decreases |a|
  {
    if a == [] {
      assert a + b == b;
    } else {
      assert (a + b)[..16] == a[..16] && (a + b)[16..] == a[16..] + b;
      Pow256At16();
      HornerSplit(r, Step(r, acc, Coefficient(a[..16])), a[16..], b);
    }
  }

  lemma {:induction false} AbsorbAppend(r: nat, acc: nat, a: seq<byte>, b: seq<byte>, high: nat)
    requires |a| % 16 == 0
    ensures Absorb(r, acc, a + b, high) == Absorb(r, Absorb(r, acc, a, high), b, high)
    decreases |a|
  {
    if a == [] {
      assert a + b == b;
    } else {
      assert (a + b)[..16] == a[..16] && (a + b)[16..] == a[16..] + b;
      AbsorbAppend(r, Step(r, acc, FromLE(a[..16]) + high), a[16..], b, high);
    }
  }

  lemma Pow256At16()
    ensures Pow256(16) == TWO128
  {
    assert Pow256(4) == 0x1_0000_0000;
    assert Pow256(8) == 0x1_0000_0000_0000_0000;
  }

  /** The last block enters the evaluation once, times r. */
  lemma LastBlock(r: nat, head: seq<byte>, last: seq<byte>)
    requires |head| % 16 == 0 && |last| == 16
    ensures Evaluate(r, head + last) % P == (r * (Absorb(r, 0, head, TWO128) + Coefficient(last))) % P
  {
    hide Absorb, Coefficient;
    HornerEvaluates(r, 0, head + last);
    HornerSplit(r, 0, head, last);
    var a := Absorb(r, 0, head, TWO128);
    assert last[..16] == last && last[16..] == [];
    assert Horner(r, a, last) == Step(r, a, Coefficient(last));
  }

  /** Two messages that differ in the last block only: their evaluations differ by r times the
      difference. */
  lemma LastBlockDiffers(r: nat, head: seq<byte>, last: seq<byte>, other: seq<byte>, gap: nat)
    requires |head| % 16 == 0 && |last| == |other| == 16 && FromLE(other) == FromLE(last) + gap
    ensures Evaluate(r, head + other) % P == (Evaluate(r, head + last) % P + r * gap) % P
  {
    hide *;
    CoefficientDiffers(last, other, gap);
    LastBlock(r, head, last);
    LastBlock(r, head, other);
    var a := Absorb(r, 0, head, TWO128);
    TimesShifted(r, a + Coefficient(last), a + Coefficient(other), gap);
  }

  lemma CoefficientDiffers(last: seq<byte>, other: seq<byte>, gap: nat)
    requires |last| == |other| && FromLE(other) == FromLE(last) + gap
    ensures Coefficient(other) == Coefficient(last) + gap
  {
  }

  lemma TimesShifted(r: nat, x: nat, y: nat, gap: nat)
    requires y == x + gap
    ensures (r * y) % P == ((r * x) % P + r * gap) % P
  {
    TimesSumRight(r, x, gap);
    var u, v := r * x, r * gap;
    ModPlus(u, v);
  }

  lemma TimesSumRight(r: int, a: int, b: int)
    ensures r * (a + b) == r * a + r * b
  {
  }
}
