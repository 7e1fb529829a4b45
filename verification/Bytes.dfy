/** Bytes, machine words and their little- and big-endian encodings. A word type is
    a subset of `int`: assigning an `int` expression to a `u32` or `u64` variable is
    a proof that the C expression does not wrap; where C does wrap, the models
    write the remainder out. */
module Bytes {
  import opened Bits

  type byte = x: int | 0 <= x < 0x100
  type u32 = x: int | 0 <= x < 0x1_0000_0000
  type u64 = x: int | 0 <= x < 0x1_0000_0000_0000_0000

  function Zeros(n: nat): (s: seq<byte>)
    ensures |s| == n && forall i :: 0 <= i < n ==> s[i] == 0
  {
    seq(n, _ => 0)
  }

  function Pow256(n: nat): (p: nat)
    ensures p > 0
  {
    if n == 0 then 1 else 256 * Pow256(n - 1)
  }

  /** The unsigned integer whose little-endian bytes are s. */
  function FromLE(s: seq<byte>): nat {
    if s == [] then 0 else s[0] + 256 * FromLE(s[1..])
  }

  /** The n low bytes of v, least significant first. */
  function ToLE(n: nat, v: nat): (s: seq<byte>)
    ensures |s| == n
  {
    if n == 0 then [] else [v % 256] + ToLE(n - 1, v / 256)
  }

  /** The n low bytes of v, most significant first. */
  function ToBE(n: nat, v: nat): (s: seq<byte>)
    ensures |s| == n
  {
    if n == 0 then [] else ToBE(n - 1, v / 256) + [v % 256]
  }

  lemma {:induction false} FromLEBound(s: seq<byte>)
    ensures FromLE(s) < Pow256(|s|)
  {
    if s != [] { FromLEBound(s[1..]); }
  }

  lemma {:induction false} FromLEAppend(a: seq<byte>, b: seq<byte>)
    ensures FromLE(a + b) == FromLE(a) + Pow256(|a|) * FromLE(b)
  {
    if a == [] {
      assert a + b == b;
    } else {
      assert (a + b)[1..] == a[1..] + b;
      FromLEAppend(a[1..], b);
      assert (256 * Pow256(|a| - 1)) * FromLE(b) == 256 * (Pow256(|a| - 1) * FromLE(b)) by {
        MulAssoc(256, Pow256(|a| - 1), FromLE(b));
      }
    }
  }

  lemma MulAssoc(a: int, b: int, c: int)
    ensures (a * b) * c == a * (b * c)
  {
  }

  lemma {:induction false} FromLEZeros(n: nat)
    ensures FromLE(Zeros(n)) == 0
  {
    if n > 0 {
      assert Zeros(n)[1..] == Zeros(n - 1);
      FromLEZeros(n - 1);
    }
  }

  /** Decoding undoes encoding for every value that fits. */
  lemma {:induction false} DecodeEncode(n: nat, v: nat)
    requires v < Pow256(n)
    ensures FromLE(ToLE(n, v)) == v
  {
    if n > 0 {
      assert ToLE(n, v)[1..] == ToLE(n - 1, v / 256);
      DecodeEncode(n - 1, v / 256);
    }
  }

  /** Encoding undoes decoding for every byte string. */
  lemma {:induction false} EncodeDecode(s: seq<byte>)
    ensures ToLE(|s|, FromLE(s)) == s
  {
    if s != [] {
      EncodeDecode(s[1..]);
      FirstDigit(s[0], FromLE(s[1..]));
      assert s == [s[0]] + s[1..];
    }
  }

  lemma FirstDigit(x: byte, rest: nat)
    ensures (x + 256 * rest) % 256 == x && (x + 256 * rest) / 256 == rest
  {
  }

  /** The four-byte load that every C file of the repository defines. */
  function Load32(s: seq<byte>, i: nat): u32
    requires i + 4 <= |s|
  {
    s[i] as int + 0x100 * s[i + 1] as int + 0x1_0000 * s[i + 2] as int + 0x100_0000 * s[i + 3] as int
  }

  lemma Load32IsFromLE(s: seq<byte>, i: nat)
    requires i + 4 <= |s|
    ensures Load32(s, i) == FromLE(s[i..i + 4])
  {
    var t := s[i..i + 4];
    assert t[1..][1..] == t[2..] && t[2..][1..] == t[3..] && t[3..][1..] == [];
    assert FromLE(t[3..]) == t[3];
    assert FromLE(t[2..]) == t[2] + 256 * FromLE(t[3..]);
    assert FromLE(t[1..]) == t[1] + 256 * FromLE(t[2..]);
  }

  lemma AppendAssoc(a: seq<byte>, b: seq<byte>, c: seq<byte>)
    ensures (a + b) + c == a + (b + c)
  {
  }

  lemma CutAt(s: seq<byte>, n: nat)
    requires n <= |s|
    ensures s[..n] + s[n..] == s && s[..|s|] == s
  {
  }

  /** s with the bytes from off on overwritten by x. */
  function Splice(s: seq<byte>, off: nat, x: seq<byte>): (t: seq<byte>)
    requires off + |x| <= |s|
    ensures |t| == |s|
  {
    s[..off] + x + s[off + |x|..]
  }

  /** after is before with the bytes from off on overwritten by x. */
  ghost predicate Overwritten(before: seq<byte>, after: seq<byte>, off: nat, x: seq<byte>) {
    off + |x| <= |before| && after == Splice(before, off, x)
  }

  lemma SpliceTail(s: seq<byte>, off: nat, x: seq<byte>, end: nat)
    requires off + |x| <= |s|
    ensures off + |x| <= end <= |s| ==> Splice(s, off, x)[off + |x|..end] == s[off + |x|..end]
  {
  }

  lemma SpliceAdjacent(s: seq<byte>, off: nat, x: seq<byte>, y: seq<byte>)
    requires off + |x| + |y| <= |s|
    ensures Splice(Splice(s, off, x), off + |x|, y) == Splice(s, off, x + y)
  {
    var t := Splice(s, off, x);
    assert t[..off + |x|] == s[..off] + x;
    assert t[off + |x| + |y|..] == s[off + |x| + |y|..];
  }

  function XorByte(a: byte, b: byte): byte {
    XorBound(a, b, 8);
    assert Pow2(8) == 256;
    Xor(a, b)
  }

  /** Bytewise exclusive or of two strings of one length. */
  function XorBytes(a: seq<byte>, b: seq<byte>): (c: seq<byte>)
    requires |a| == |b|
    ensures |c| == |a|
  {
    seq(|a|, i requires 0 <= i < |a| => XorByte(a[i], b[i]))
  }

  /** Remainders modulo m ignore multiples of m. */
  lemma ModAddMultiple(x: int, m: int, k: int)
    requires m > 0
    ensures (x + m * k) % m == x % m
  {
    assert x + m * k == m * (x / m + k) + x % m;
    ModUnique(x + m * k, m, x / m + k, x % m);
  }

  /** The four-byte little-endian store that every C file of the repository defines. */
  method Store32(p: array<byte>, off: nat, v: u32)
    requires off + 4 <= p.Length
    modifies p
    ensures p[..] == Splice(old(p[..]), off, ToLE(4, v))
  {
    ghost var t := ToLE(4, v);
    StoreBytes(v);
    hide ToLE;
    p[off] := v % 0x100;
    p[off + 1] := v / 0x100 % 0x100;
    p[off + 2] := v / 0x1_0000 % 0x100;
    p[off + 3] := v / 0x100_0000 % 0x100;
    assert p[off..off + 4] == t;
  }

  lemma StoreBytes(v: u32)
    ensures ToLE(4, v) == [v % 0x100, v / 0x100 % 0x100, v / 0x1_0000 % 0x100, v / 0x100_0000 % 0x100]
  {
    assert v / 0x100 / 0x100 == v / 0x1_0000 && v / 0x1_0000 / 0x100 == v / 0x100_0000;
    assert ToLE(2, v / 0x1_0000) == [v / 0x1_0000 % 0x100] + ToLE(1, v / 0x100_0000);
    assert ToLE(3, v / 0x100) == [v / 0x100 % 0x100] + ToLE(2, v / 0x1_0000);
  }

  // Test data

  /** 00 01 02 ... */
  function Counting(n: nat): (s: seq<byte>)
    requires n <= 256
    ensures |s| == n
  {
    seq(n, i requires 0 <= i < n => i)
  }

  lemma CountingLoads(s: seq<byte>, i: nat)
    requires 4 * i + 4 <= |s| <= 256 && (forall j :: 4 * i <= j < 4 * i + 4 ==> s[j] == j)
    ensures Load32(s, 4 * i) == 0x0302_0100 + 0x0404_0404 * i
  {
  }

  // 32-bit words as bit vectors, for the permutations

  function Word(v: u32): bv32 {
    v as bv32
  }

  function ToWords(s: seq<u32>): (t: seq<bv32>)
    ensures |t| == |s|
  {
    seq(|s|, i requires 0 <= i < |s| => Word(s[i]))
  }

  function Value(w: bv32): u32 {
    w as int
  }

  /** The little-endian bytes of the words, in order. */
  function Serialise(s: seq<u32>): (t: seq<byte>)
    ensures |t| == 4 * |s|
  {
    if s == [] then [] else Serialise(s[..|s| - 1]) + ToLE(4, s[|s| - 1])
  }

  lemma {:induction false} SerialiseAppend(a: seq<u32>, b: seq<u32>)
    ensures Serialise(a + b) == Serialise(a) + Serialise(b)
    decreases |b|
  {
    hide ToLE;
    if b == [] {
      assert a + b == a;
    } else {
      var n := |b| - 1;
      assert (a + b)[..|a + b| - 1] == a + b[..n];
      SerialiseAppend(a, b[..n]);
    }
  }

  lemma SerialiseFour(a: u32, b: u32, c: u32, d: u32)
    ensures Serialise([a, b, c, d]) == ToLE(4, a) + ToLE(4, b) + ToLE(4, c) + ToLE(4, d)
  {
    hide ToLE;
    assert [a, b, c, d][..3] == [a, b, c] && [a, b, c][..2] == [a, b] && [a, b][..1] == [a] && [a][..0] == [];
    assert Serialise([a]) == Serialise([]) + ToLE(4, a);
    assert Serialise([a, b]) == Serialise([a]) + ToLE(4, b);
    assert Serialise([a, b, c]) == Serialise([a, b]) + ToLE(4, c);
  }
}
