/** BLAKE2s: the whole-message definition of section 3.3 of RFC 7693 and the streaming
    context of blake2s.c, which holds the last block back until it knows it is the last. */
module Blake2s {
  import opened Bits
  import opened Bytes
  import opened Wrappers

  const TWO64: nat := 0x1_0000_0000_0000_0000

  const IV: seq<u32> := [
    0x6A09E667, 0xBB67AE85, 0x3C6EF372, 0xA54FF53A,
    0x510E527F, 0x9B05688C, 0x1F83D9AB, 0x5BE0CD19]

  function Sigma(round: nat): (s: seq<nat>)
    requires round < 10
    ensures |s| == 16 && forall i :: 0 <= i < 16 ==> s[i] < 16
  {
    if round == 0 then [0, 1, 2, 3, 4, 5, 6, 7, 8, 9, 10, 11, 12, 13, 14, 15]
    else if round == 1 then [14, 10, 4, 8, 9, 15, 13, 6, 1, 12, 0, 2, 11, 7, 5, 3]
    else if round == 2 then [11, 8, 12, 0, 5, 2, 15, 13, 10, 14, 3, 6, 7, 1, 9, 4]
    else if round == 3 then [7, 9, 3, 1, 13, 12, 11, 14, 2, 6, 5, 10, 4, 0, 15, 8]
    else if round == 4 then [9, 0, 5, 7, 2, 4, 10, 15, 14, 1, 11, 12, 6, 8, 3, 13]
    else SigmaUpper(round)
  }

  function SigmaUpper(round: nat): (s: seq<nat>)
    requires 5 <= round < 10
    ensures |s| == 16 && forall i :: 0 <= i < 16 ==> s[i] < 16
  {
    if round == 5 then [2, 12, 6, 10, 0, 11, 8, 3, 4, 13, 7, 5, 15, 14, 1, 9]
    else if round == 6 then [12, 5, 1, 15, 14, 13, 4, 10, 0, 7, 6, 3, 9, 2, 8, 11]
    else if round == 7 then [13, 11, 7, 14, 12, 1, 3, 9, 5, 0, 15, 4, 8, 6, 2, 10]
    else if round == 8 then [6, 15, 14, 9, 11, 3, 0, 8, 12, 2, 13, 7, 1, 4, 10, 5]
    else [10, 2, 8, 4, 7, 6, 1, 5, 15, 11, 9, 14, 3, 12, 13, 0]
  }

  // The compression function of sections 3.1 and 3.2

  function Rotr(v: bv32, n: nat): bv32
    requires 0 < n < 32
  {
    (v >> n) ^ (v << (32 - n))
  }

  /** `a := a + b + x; d := (d ^ a) >>> p; c := c + d; b := (b ^ c) >>> q`. */
  function HalfMix(a: bv32, b: bv32, c: bv32, d: bv32, x: bv32, p: nat, q: nat): (bv32, bv32, bv32, bv32)
    requires 0 < p < 32 && 0 < q < 32
  {
    var a' := a + b + x;
    var d' := Rotr(d ^ a', p);
    var c' := c + d';
    (a', Rotr(b ^ c', q), c', d')
  }

  /** The mixing function G on four words of the work vector. */
  function Mix(v: seq<bv32>, a: nat, b: nat, c: nat, d: nat, x: bv32, y: bv32): (w: seq<bv32>)
    requires |v| == 16 && a < 16 && b < 16 && c < 16 && d < 16
    ensures |w| == 16
  {
    var g := HalfMix(v[a], v[b], v[c], v[d], x, 16, 12);
    var k := HalfMix(g.0, g.1, g.2, g.3, y, 8, 7);
    v[a := k.0][b := k.1][c := k.2][d := k.3]
  }

  function Round(v: seq<bv32>, m: seq<bv32>, s: seq<nat>): (w: seq<bv32>)
    requires |v| == 16 && |m| == 16 && |s| == 16 && forall i :: 0 <= i < 16 ==> s[i] < 16
    ensures |w| == 16
  {
    var c0 := Mix(v, 0, 4, 8, 12, m[s[0]], m[s[1]]);
    var c1 := Mix(c0, 1, 5, 9, 13, m[s[2]], m[s[3]]);
    var c2 := Mix(c1, 2, 6, 10, 14, m[s[4]], m[s[5]]);
    var c3 := Mix(c2, 3, 7, 11, 15, m[s[6]], m[s[7]]);
    var d0 := Mix(c3, 0, 5, 10, 15, m[s[8]], m[s[9]]);
    var d1 := Mix(d0, 1, 6, 11, 12, m[s[10]], m[s[11]]);
    var d2 := Mix(d1, 2, 7, 8, 13, m[s[12]], m[s[13]]);
    Mix(d2, 3, 4, 9, 14, m[s[14]], m[s[15]])
  }

  function Rounds(v: seq<bv32>, m: seq<bv32>, n: nat): (w: seq<bv32>)
    requires |v| == 16 && |m| == 16 && n <= 10
    ensures |w| == 16
  {
    if n == 0 then v else Round(Rounds(v, m, n - 1), m, Sigma(n - 1))
  }

  function MessageWords(block: seq<byte>): (m: seq<bv32>)
    requires |block| == 64
    ensures |m| == 16
  {
    seq(16, i requires 0 <= i < 16 => Word(Load32(block, 4 * i)))
  }

  function Xor32(x: bv32, y: bv32): bv32 {
    x ^ y
  }

  /** The work vector: chained state, initialisation vector, byte counter, final flag. */
  function WorkVector(h: seq<u32>, t: nat, last: bool): (v: seq<bv32>)
    requires |h| == 8
    ensures |v| == 16
  {
    var v := ToWords(h + IV);
    var v := v[12 := Xor32(v[12], Word(t % TWO32))][13 := Xor32(v[13], Word(t / TWO32 % TWO32))];
    if last then v[14 := Xor32(v[14], 0xFFFF_FFFF)] else v
  }

  function Fold1(x: u32, y: bv32, z: bv32): u32 {
    Value(Word(x) ^ y ^ z)
  }

  function Fold(h: seq<u32>, v: seq<bv32>): (g: seq<u32>)
    requires |h| == 8 && |v| == 16
    ensures |g| == 8
  {
    seq(8, i requires 0 <= i < 8 => Fold1(h[i], v[i], v[i + 8]))
  }

  function Compress(h: seq<u32>, block: seq<byte>, t: nat, last: bool): (g: seq<u32>)
    requires |h| == 8 && |block| == 64
    ensures |g| == 8
  {
    Fold(h, Rounds(WorkVector(h, t, last), MessageWords(block), 10))
  }

  // The hash function of section 3.3

  /** The parameter block in the first state word. */
  function ParameterWord(outlen: nat, keylen: nat): u32
    requires outlen <= 32 && keylen <= 32
  {
    Value(Word(IV[0]) ^ 0x0101_0000 ^ (Word(keylen) << 8) ^ Word(outlen))
  }

  function Start(outlen: nat, keylen: nat): (h: seq<u32>)
    requires outlen <= 32 && keylen <= 32
    ensures |h| == 8
  {
    IV[0 := ParameterWord(outlen, keylen)]
  }

  /** A key is hashed as a first block of its own. */
  function KeyBlock(key: seq<byte>): seq<byte>
    requires |key| <= 32
  {
    if key == [] then [] else key + Zeros(64 - |key|)
  }

  /** The state after the first n blocks, none of them the last. */
  function Chain(h: seq<u32>, data: seq<byte>, n: nat): (g: seq<u32>)
    requires |h| == 8 && 64 * n <= |data|
    ensures |g| == 8
  {
    if n == 0 then h else Compress(Chain(h, data, n - 1), data[64 * (n - 1)..64 * n], 64 * n, false)
  }

  /** How many blocks precede the last one; the last block is empty only if there are no data. */
  function Preceding(len: nat): (n: nat)
    ensures 64 * n <= len <= 64 * n + 64
    ensures len > 0 ==> 64 * n < len
  {
    if len == 0 then 0 else (len - 1) / 64
  }

  function FinalState(h: seq<u32>, data: seq<byte>): (g: seq<u32>)
    requires |h| == 8
    ensures |g| == 8
  {
    var n := Preceding(|data|);
    Compress(Chain(h, data, n), data[64 * n..] + Zeros(64 * n + 64 - |data|), |data|, true)
  }

  function Output(h: seq<u32>, outlen: nat): (d: seq<byte>)
    requires |h| == 8 && outlen <= 32
    ensures |d| == outlen
  {
    Serialise(h)[..outlen]
  }

  /** BLAKE2s of a message under an optional key, `outlen` bytes long. */
  function Hash(outlen: nat, key: seq<byte>, msg: seq<byte>): (d: seq<byte>)
    requires 0 < outlen <= 32 && |key| <= 32
    ensures |d| == outlen
  {
    Output(FinalState(Start(outlen, |key|), KeyBlock(key) + msg), outlen)
  }

  /** Blocks already chained do not depend on what follows. */
  lemma {:induction false} ChainPrefix(h: seq<u32>, data: seq<byte>, more: seq<byte>, n: nat)
    requires |h| == 8 && 64 * n <= |data|
    ensures Chain(h, data + more, n) == Chain(h, data, n)
  {
    hide Compress;
    if n > 0 {
      ChainPrefix(h, data, more, n - 1);
      assert (data + more)[64 * (n - 1)..64 * n] == data[64 * (n - 1)..64 * n];
    }
  }

  // The implementation

  /** B2S_G */
  method MixAt(v: array<bv32>, a: nat, b: nat, c: nat, d: nat, x: bv32, y: bv32)
    requires v.Length == 16 && a < 16 && b < 16 && c < 16 && d < 16
    requires a != b && a != c && a != d && b != c && b != d && c != d
    modifies v
    ensures v[..] == Mix(old(v[..]), a, b, c, d, x, y)
  {
    hide HalfMix;
    var g := HalfMix(v[a], v[b], v[c], v[d], x, 16, 12);
    v[a], v[b], v[c], v[d] := g.0, g.1, g.2, g.3;
    var k := HalfMix(v[a], v[b], v[c], v[d], y, 8, 7);
    v[a], v[b], v[c], v[d] := k.0, k.1, k.2, k.3;
  }

  /** One of the ten rounds of blake2s_compress. */
  method RoundAt(v: array<bv32>, m: seq<bv32>, s: seq<nat>)
    requires v.Length == 16 && |m| == 16 && |s| == 16 && forall i :: 0 <= i < 16 ==> s[i] < 16
    modifies v
    ensures v[..] == Round(old(v[..]), m, s)
  {
    hide Mix;
    MixAt(v, 0, 4, 8, 12, m[s[0]], m[s[1]]);
    MixAt(v, 1, 5, 9, 13, m[s[2]], m[s[3]]);
    MixAt(v, 2, 6, 10, 14, m[s[4]], m[s[5]]);
    MixAt(v, 3, 7, 11, 15, m[s[6]], m[s[7]]);
    MixAt(v, 0, 5, 10, 15, m[s[8]], m[s[9]]);
    MixAt(v, 1, 6, 11, 12, m[s[10]], m[s[11]]);
    MixAt(v, 2, 7, 8, 13, m[s[12]], m[s[13]]);
    MixAt(v, 3, 4, 9, 14, m[s[14]], m[s[15]]);
  }

  lemma Complement(x: bv32)
    ensures !x == Xor32(x, 0xFFFF_FFFF)
  {
  }

  /** The two-word counter: adding to the low word carries into the high word, and the pair
      counts modulo 2^64. */
  lemma CounterAdds(t0: u32, t1: u32, c: nat, total: nat)
    requires c <= 64 && t0 + TWO32 * t1 == total % TWO64
    ensures var u0 := (t0 + c) % TWO32;
            var u1 := if u0 < c then (t1 + 1) % TWO32 else t1;
            u0 + TWO32 * u1 == (total + c) % TWO64
  {
    CounterCarry(t0, t1, c);
    var sum := t0 + TWO32 * t1 + c;
    ModAddMultiple(sum, TWO64, total / TWO64);
    assert total + c == sum + TWO64 * (total / TWO64);
  }

  lemma CounterCarry(t0: u32, t1: u32, c: nat)
    requires c <= 64
    ensures var u0 := (t0 + c) % TWO32;
            var u1 := if u0 < c then (t1 + 1) % TWO32 else t1;
            u0 + TWO32 * u1 == (t0 + TWO32 * t1 + c) % TWO64
  {
  }

  lemma CounterWords(t0: u32, t1: u32, total: nat)
    requires t0 + TWO32 * t1 == total % TWO64
    ensures t0 == total % TWO32 && t1 == total / TWO32 % TWO32
  {
    var q := total / TWO64;
    ModUnique(total, TWO32, TWO32 * q + t1, t0);
    ModUnique(total / TWO32, TWO32, q, t1);
  }

  class Blake2sContext {
    const b: array<byte>
    const h: array<u32>
    var t0: u32
    var t1: u32
    var c: nat
    var outlen: nat
    // The key length and everything hashed so far, key block included
    ghost var keylen: nat
    ghost var data: seq<byte>
    // How many blocks have been compressed
    ghost var blocks: nat

    /** The buffer, the chained state and the counter account for all the data. */
    ghost predicate Core()
      reads this, b, h
    {
      && b.Length == 64 && h.Length == 8 && 0 < outlen <= 32 && keylen <= 32
      && c <= 64 && |data| == 64 * blocks + c
      && b[..c] == data[64 * blocks..]
      && h[..] == Chain(Start(outlen, keylen), data, blocks)
      && t0 + TWO32 * t1 == (64 * blocks) % TWO64
    }

    /** The last block is held back, even when it is full. */
    ghost predicate Valid()
      reads this, b, h
    {
      Core() && (|data| > 0 ==> c > 0)
    }

    constructor ()
      ensures fresh(b) && fresh(h) && b.Length == 64 && h.Length == 8
    {
      b := new byte[64];
      h := new u32[8];
      t0, t1, c, outlen, keylen, data, blocks := 0, 0, 0, 0, 0, [], 0;
    }

    /** blake2s_init: false stands for the error return. */
    method Init(out: nat, key: seq<byte>) returns (ok: bool)
      requires b.Length == 64 && h.Length == 8
      modifies this, b, h
      ensures ok <==> 0 < out <= 32 && |key| <= 32
      ensures ok ==> Valid() && outlen == out && keylen == |key| && data == KeyBlock(key)
    {
      if out == 0 || out > 32 || |key| > 32 {
        return false;
      }
      hide Blake2sContext.Valid, Start;
      Reset(out, |key|);
      if |key| > 0 {
        PutKey(key);
      }
      ok := true;
    }

    /** The key is fed like data, and then the buffer pointer jumps to the end. */
    method PutKey(key: seq<byte>)
      requires Valid() && data == [] && c == 0 && blocks == 0 && 0 < |key| <= 32
      requires forall j :: |key| <= j < 64 ==> b[j] == 0
      modifies this`t0, this`t1, this`c, this`data, this`blocks, b, h
      ensures Valid() && data == KeyBlock(key)
    {
      assert b.Length == 64;
      hide Blake2sContext.Valid, Start, KeyBlock, Zeros;
      Update(key);
      assert data == key;
      SkipToEnd(key);
    }

    method Reset(out: nat, klen: nat)
      requires b.Length == 64 && h.Length == 8 && 0 < out <= 32 && klen <= 32
      modifies this, b, h
      ensures Valid() && outlen == out && keylen == klen && data == [] && c == 0 && blocks == 0
      ensures forall j :: klen <= j < 64 ==> b[j] == 0
    {
      hide Chain, Start, Compress;
      LoadStart(out, klen);
      ChainNothing(Start(out, klen), []);
      t0, t1, c, outlen := 0, 0, 0, out;
      keylen, data, blocks := klen, [], 0;
      ZeroBuffer(klen);
      assert h[..] == Chain(Start(outlen, keylen), data, 0);
    }

    /** `ctx->c = 64` after the key: the zeros behind it complete the key block. */
    method SkipToEnd(key: seq<byte>)
      requires Valid() && 0 < |key| <= 32 && data == key && c == |key| && blocks == 0
      requires forall j :: c <= j < 64 ==> b[j] == 0
      modifies this`c, this`data, this`blocks
      ensures Valid() && data == KeyBlock(key)
    {
      hide Chain, Start, Compress;
      ChainNothing(Start(outlen, keylen), key);
      ChainNothing(Start(outlen, keylen), key + Zeros(64 - |key|));
      c := 64;
      data := key + Zeros(64 - |key|);
      blocks := 0;
      assert b[..64] == data[0..];
    }

    /** `state, "param block"`. */
    method LoadStart(out: nat, klen: nat)
      requires h.Length == 8 && out <= 32 && klen <= 32
      modifies h
      ensures h[..] == Start(out, klen)
    {
      LoadIV();
      var word := MixParameters(h[0], out, klen);
      h[0] := word;
    }

    /** `ctx->h[i] = blake2s_iv[i]`. */
    method LoadIV()
      requires h.Length == 8
      modifies h
      ensures h[..] == IV
    {
      for i := 0 to 8
        invariant h[..i] == IV[..i]
      {
        h[i] := IV[i];
      }
    }

    /** `zero input block`. */
    method ZeroBuffer(from: nat)
      requires b.Length == 64 && from <= 64
      modifies b
      ensures forall j :: from <= j < 64 ==> b[j] == 0
    {
      for i := from to 64
        invariant forall j :: from <= j < i ==> b[j] == 0
      {
        b[i] := 0;
      }
    }

    /** blake2s_update */
    method Update(inp: seq<byte>)
      requires Valid()
      modifies this`t0, this`t1, this`c, this`data, this`blocks, b, h
      ensures Valid() && data == old(data) + inp
      ensures old(c) + |inp| <= 64 ==> c == old(c) + |inp| && blocks == old(blocks)
      ensures old(c) + |inp| <= 64 ==> forall j :: old(c) + |inp| <= j < b.Length ==> b[j] == old(b[j])
    {
      hide *;
      for i := 0 to |inp|
        invariant Valid() && data == old(data) + inp[..i]
        invariant old(c) + |inp| <= 64 ==> c == old(c) + i && blocks == old(blocks)
        invariant old(c) + |inp| <= 64 ==> forall j :: old(c) + |inp| <= j < b.Length ==> b[j] == old(b[j])
      {
        PutByte(inp[i]);
        assert inp[..i + 1] == inp[..i] + [inp[i]];
      }
      assert inp[..|inp|] == inp;
    }

    /** One turn of the update loop: a full buffer is compressed only when a byte follows. */
    method PutByte(x: byte)
      requires Valid()
      modifies this`t0, this`t1, this`c, this`data, this`blocks, b, h
      ensures Valid() && data == old(data) + [x]
      ensures old(c) < 64 ==> c == old(c) + 1 && blocks == old(blocks)
      ensures old(c) < 64 ==> forall j :: old(c) < j < b.Length ==> b[j] == old(b[j])
    {
      hide Chain, Start, Compress;
      if c == 64 {
        Flush();
      }
      ChainPrefix(Start(outlen, keylen), data, [x], blocks);
      b[c] := x;
      c := c + 1;
      data := data + [x];
      assert b[..c] == data[64 * blocks..];
    }

    /** `buffer full ?` */
    method Flush()
      requires Valid() && c == 64
      modifies this`t0, this`t1, this`c, this`blocks, h
      ensures Core() && c == 0
    {
      hide Chain, Start, Compress;
      BumpCounter(64 * blocks);
      assert data[64 * blocks..64 * blocks + 64] == b[..];
      CompressBlock(false, 64 * blocks + 64);
      ChainStep(Start(outlen, keylen), data, blocks);
      c := 0;
      blocks := blocks + 1;
    }

    /** `ctx->t[0] += ctx->c; if (ctx->t[0] < ctx->c) ctx->t[1]++`. */
    method BumpCounter(ghost total: nat)
      requires c <= 64 && t0 + TWO32 * t1 == total % TWO64
      modifies this`t0, this`t1
      ensures t0 + TWO32 * t1 == (total + c) % TWO64
    {
      CounterAdds(t0, t1, c, total);
      t0 := (t0 + c) % TWO32;
      if t0 < c { t1 := (t1 + 1) % TWO32; }
    }

    /** blake2s_compress, with the number of bytes that the counter stands for. */
    method CompressBlock(last: bool, ghost total: nat)
      requires b.Length == 64 && h.Length == 8 && t0 + TWO32 * t1 == total % TWO64
      modifies h
      ensures h[..] == Compress(old(h[..]), b[..], total, last)
    {
      hide Rounds, Word, Load32, Fold, WorkVector, MessageWords;
      CounterWords(t0, t1, total);
      var v := new bv32[16];
      LoadVector(v, last, total);
      var m := new bv32[16];
      LoadMessage(m);
      TenRounds(v, m[..]);
      FoldInto(v);
    }

    /** `get little-endian words`. */
    method LoadMessage(m: array<bv32>)
      requires m.Length == 16 && b.Length == 64 && m as object != b
      modifies m
      ensures m[..] == MessageWords(b[..])
    {
      hide Word, Load32;
      ghost var words := MessageWords(b[..]);
      for i := 0 to 16
        invariant m[..i] == words[..i]
      {
        m[i] := Word(Load32(b[..], 4 * i));
      }
    }

    /** `init work variables`. */
    method LoadVector(v: array<bv32>, last: bool, ghost total: nat)
      requires v.Length == 16 && h.Length == 8 && v as object != h
      requires t0 == total % TWO32 && t1 == total / TWO32 % TWO32
      modifies v
      ensures v[..] == WorkVector(h[..], total, last)
    {
      hide Word, Xor32, ToWords;
      CopyHalves(v);
      v[12] := Xor32(v[12], Word(t0));
      v[13] := Xor32(v[13], Word(t1));
      if last {
        Complement(v[14]);
        v[14] := !v[14];
      }
    }

    /** `v[i] = ctx->h[i]; v[i + 8] = blake2s_iv[i]`. */
    method CopyHalves(v: array<bv32>)
      requires v.Length == 16 && h.Length == 8 && v as object != h
      modifies v
      ensures v[..] == ToWords(h[..] + IV)
    {
      hide Word;
      ghost var words := ToWords(h[..] + IV);
      for i := 0 to 8
        invariant forall j :: 0 <= j < i || 8 <= j < 8 + i ==> v[j] == words[j]
      {
        assert words[i] == Word(h[i]) && words[i + 8] == Word(IV[i]);
        v[i] := Word(h[i]);
        v[i + 8] := Word(IV[i]);
      }
    }

    /** `ctx->h[i] ^= v[i] ^ v[i + 8]`. */
    method FoldInto(v: array<bv32>)
      requires v.Length == 16 && h.Length == 8 && v as object != h
      modifies h
      ensures h[..] == Fold(old(h[..]), v[..])
    {
      hide Fold1;
      ghost var folded := Fold(h[..], v[..]);
      for i := 0 to 8
        invariant forall j :: 0 <= j < i ==> h[j] == folded[j]
        invariant forall j :: i <= j < 8 ==> h[j] == old(h[j])
      {
        h[i] := FoldWord(h[i], v[i], v[i + 8]);
      }
    }

    /** blake2s_final */
    method Final() returns (out: seq<byte>)
      requires Valid()
      modifies this`t0, this`t1, this`c, b, h
      ensures out == Output(FinalState(Start(old(outlen), old(keylen)), old(data)), old(outlen))
    {
      hide Chain, Start, Compress, Serialise;
      ghost var start := Start(outlen, keylen);
      BumpCounter(64 * blocks);
      assert blocks == Preceding(|data|);
      PadBuffer();
      CompressBlock(true, |data|);
      assert h[..] == FinalState(start, data);
      out := WriteDigest();
    }

    /** `little endian convert and store`. */
    method WriteDigest() returns (out: seq<byte>)
      requires h.Length == 8 && outlen <= 32
      ensures out == Output(h[..], outlen)
    {
      hide Output;
      out := [];
      for i := 0 to outlen
        invariant |out| == i && forall j :: 0 <= j < i ==> out[j] == Output(h[..], outlen)[j]
      {
        OutputByte(h[..], outlen, i);
        out := out + [h[i / 4] / Pow256(i % 4) % 0x100];
      }
    }

    /** `while (ctx->c < 64) ctx->b[ctx->c++] = 0`. */
    method PadBuffer()
      requires b.Length == 64 && c <= 64
      modifies this`c, b
      ensures b[..] == old(b[..c]) + Zeros(64 - old(c))
    {
      while c < 64
        invariant old(c) <= c <= 64
        invariant b[..c] == old(b[..c]) + Zeros(c - old(c))
      {
        b[c] := 0;
        c := c + 1;
        assert b[..c] == b[..c - 1] + [0];
      }
      assert b[..64] == b[..];
    }
  }

  /** `ctx->h[0] ^= 0x01010000 ^ (keylen << 8) ^ outlen`. */
  method MixParameters(word: u32, outlen: nat, keylen: nat) returns (r: u32)
    requires word == IV[0] && outlen <= 32 && keylen <= 32
    ensures r == ParameterWord(outlen, keylen)
  {
    hide Word, Value;
    XorChain(Word(word), 0x0101_0000, Word(keylen) << 8, Word(outlen));
    r := Value(Word(word) ^ (0x0101_0000 ^ (Word(keylen) << 8) ^ Word(outlen)));
  }

  lemma XorChain(a: bv32, x: bv32, y: bv32, z: bv32)
    ensures a ^ (x ^ y ^ z) == a ^ x ^ y ^ z
  {
  }

  method FoldWord(x: u32, y: bv32, z: bv32) returns (r: u32)
    ensures r == Fold1(x, y, z)
  {
    XorAssociates(Word(x), y, z);
    r := Value(Word(x) ^ (y ^ z));
  }

  lemma XorAssociates(a: bv32, x: bv32, y: bv32)
    ensures a ^ (x ^ y) == a ^ x ^ y
  {
  }

  lemma ChainNothing(h: seq<u32>, data: seq<byte>)
    requires |h| == 8
    ensures Chain(h, data, 0) == h
  {
  }

  lemma ChainStep(h: seq<u32>, data: seq<byte>, n: nat)
    requires |h| == 8 && 64 * n + 64 <= |data|
    ensures Chain(h, data, n + 1) == Compress(Chain(h, data, n), data[64 * n..64 * n + 64], 64 * n + 64, false)
  {
    hide Compress;
  }

  method TenRounds(v: array<bv32>, m: seq<bv32>)
    requires v.Length == 16 && |m| == 16
    modifies v
    ensures v[..] == Rounds(old(v[..]), m, 10)
  {
    hide Round, Sigma;
    for i := 0 to 10
      invariant v[..] == Rounds(old(v[..]), m, i)
    {
      RoundAt(v, m, Sigma(i));
    }
  }

  lemma {:induction false} SerialiseIndex(s: seq<u32>, i: nat)
    requires i < 4 * |s|
    ensures Serialise(s)[i] == ToLE(4, s[i / 4])[i % 4]
    decreases |s|
  {
    if i < 4 * (|s| - 1) { SerialiseIndex(s[..|s| - 1], i); }
  }

  /** `(ctx->h[i >> 2] >> (8 * (i & 3))) & 0xFF` is the next digest byte. */
  lemma OutputByte(h: seq<u32>, outlen: nat, i: nat)
    requires |h| == 8 && i < outlen <= 32
    ensures Output(h, outlen)[i] == h[i / 4] / Pow256(i % 4) % 0x100
  {
    hide Serialise, ToLE;
    SerialiseIndex(h, i);
    StoreBytes(h[i / 4]);
    assert Pow256(0) == 1 && Pow256(1) == 0x100 && Pow256(2) == 0x1_0000 && Pow256(3) == 0x100_0000;
  }

  /** blake2s: the one-call form. */
  method Blake2s(outlen: nat, key: seq<byte>, inp: seq<byte>) returns (out: Option<seq<byte>>)
    ensures out == if 0 < outlen <= 32 && |key| <= 32 then Some(Hash(outlen, key, inp)) else None
  {
    hide Blake2sContext.Valid, FinalState, KeyBlock, Start, Output;
    var ctx := new Blake2sContext();
    var ok := ctx.Init(outlen, key);
    if !ok {
      return None;
    }
    ctx.Update(inp);
    var digest := ctx.Final();
    out := Some(digest);
  }
}
