/** HMAC (section 2 of RFC 2104) and the key derivation of WireGuard over BLAKE2s, as
    wireguard.c computes them in buffers that overlap their inputs. */
module Kdf {
  import opened Bytes
  import opened Blake2s

  // The definitions

  function Digest(msg: seq<byte>): (d: seq<byte>)
    ensures |d| == 32
  {
    Hash(32, [], msg)
  }

  /** A keyed MAC of 16 bytes. */
  function Mac(key: seq<byte>, msg: seq<byte>): (d: seq<byte>)
    requires |key| <= 32
    ensures |d| == 16
  {
    Hash(16, key, msg)
  }

  /** A key of one block: long keys are hashed, short keys are padded with zeros. */
  function BlockKey(key: seq<byte>): (k: seq<byte>)
    ensures |k| == 64
  {
    if |key| > 64 then Digest(key) + Zeros(32) else key + Zeros(64 - |key|)
  }

  function Masked(k: seq<byte>, mask: byte): (m: seq<byte>)
    ensures |m| == |k|
  {
    seq(|k|, i requires 0 <= i < |k| => XorByte(k[i], mask))
  }

  function Hmac(key: seq<byte>, text: seq<byte>): (d: seq<byte>)
    ensures |d| == 32
  {
    Digest(Masked(BlockKey(key), 0x5c) + Digest(Masked(BlockKey(key), 0x36) + text))
  }

  /** The i-th output of the derivation chain: each output feeds the next one, and none
      depends on how many are taken. */
  function Tau(key: seq<byte>, input: seq<byte>, i: byte): (d: seq<byte>)
    ensures |d| == 32
    decreases i
  {
    hide Hmac;
    if i == 0 then Hmac(key, input)
    else if i == 1 then Hmac(Tau(key, input, 0), [1])
    else Hmac(Tau(key, input, 0), Tau(key, input, i - 1) + [i])
  }

  // The implementation

  method HashInto(out: array<byte>, first: seq<byte>, second: seq<byte>)
    requires out.Length >= 32
    modifies out
    ensures out[..] == Digest(first + second) + old(out[32..])
  {
    hide *;
    var d := HashTwo(first, second);
    Store(out, d);
  }

  /** init, two updates and final of an unkeyed 32-byte hash. */
  method HashTwo(first: seq<byte>, second: seq<byte>) returns (d: seq<byte>)
    ensures d == Digest(first + second)
  {
    hide Blake2sContext.Valid, FinalState, Start, Output;
    var ctx := new Blake2sContext();
    var ok := ctx.Init(32, []);
    ctx.Update(first);
    ctx.Update(second);
    d := ctx.Final();
    assert [] + first + second == [] + (first + second);
  }

  method Store(out: array<byte>, d: seq<byte>)
    requires out.Length >= |d|
    modifies out
    ensures out[..] == d + old(out[|d|..])
  {
    for i := 0 to |d|
      invariant out[..i] == d[..i] && out[|d|..] == old(out[|d|..])
    {
      out[i] := d[i];
    }
  }

  /** `memset`, `memcpy` and the xor loop for one of the two padded keys. */
  method PadKey(key: seq<byte>, mask: byte) returns (pad: array<byte>)
    requires |key| <= 64
    ensures fresh(pad) && pad[..] == Masked(key + Zeros(64 - |key|), mask)
  {
    hide XorByte;
    ghost var k := key + Zeros(64 - |key|);
    pad := new byte[64](_ => 0);
    for i := 0 to |key|
      invariant pad[..] == key[..i] + Zeros(64 - i)
    {
      pad[i] := key[i];
    }
    assert pad[..] == k;
    for i := 0 to 64
      invariant forall j :: 0 <= j < i ==> pad[j] == XorByte(k[j], mask)
      invariant forall j :: i <= j < 64 ==> pad[j] == k[j]
    {
      pad[i] := XorByte(pad[i], mask);
    }
  }

  /** `if key is longer than BLAKE2S_BLOCK_SIZE bytes reset it to key=BLAKE2S(key)`. */
  method ShortKey(key: seq<byte>) returns (k: seq<byte>)
    ensures |k| <= 64 && k + Zeros(64 - |k|) == BlockKey(key)
  {
    hide Digest;
    k := key;
    if |k| > 64 {
      k := HashTwo(key, []);
      assert key + [] == key;
    }
  }

  /** wireguard_hmac: digest and text may share a buffer. */
  method HmacInto(digest: array<byte>, key: seq<byte>, text: array<byte>, textLen: nat)
    requires digest.Length >= 32 && textLen <= text.Length
    modifies digest
    ensures digest[..] == Hmac(key, old(text[..textLen])) + old(digest[32..])
  {
    hide BlockKey, Digest, Masked, Zeros;
    var k := ShortKey(key);
    ghost var input := text[..textLen];
    var ipad := PadKey(k, 0x36);
    var opad := PadKey(k, 0x5c);
    HashInto(digest, ipad[..], text[..textLen]);
    assert digest[..32] == Digest(ipad[..] + input);
    HashInto(digest, opad[..], digest[..32]);
  }

  /** wireguard_kdf3, and with fewer outputs wireguard_kdf1 and wireguard_kdf2: tau1 may be
      the buffer of the chaining key. */
  method Kdf3(tau1: array<byte>, tau2: array<byte>, tau3: array<byte>, chainingKey: array<byte>, data: seq<byte>)
    requires tau1.Length == tau2.Length == tau3.Length == chainingKey.Length == 32
    requires tau1 != tau2 && tau1 != tau3 && tau2 != tau3
    modifies tau1, tau2, tau3
    ensures tau1[..] == Tau(old(chainingKey[..]), data, 1)
    ensures tau2[..] == Tau(old(chainingKey[..]), data, 2)
    ensures tau3[..] == Tau(old(chainingKey[..]), data, 3)
  {
    hide Hmac;
    ghost var key := chainingKey[..];
    var tau0, output := First(chainingKey[..], data);
    Store(tau1, output[..32]);
    Next(tau0, output, 2, key, data);
    Store(tau2, output[..32]);
    Next(tau0, output, 3, key, data);
    Store(tau3, output[..32]);
  }

  method Kdf2(tau1: array<byte>, tau2: array<byte>, chainingKey: array<byte>, data: seq<byte>)
    requires tau1.Length == tau2.Length == chainingKey.Length == 32 && tau1 != tau2
    modifies tau1, tau2
    ensures tau1[..] == Tau(old(chainingKey[..]), data, 1)
    ensures tau2[..] == Tau(old(chainingKey[..]), data, 2)
  {
    hide Hmac;
    ghost var key := chainingKey[..];
    var tau0, output := First(chainingKey[..], data);
    Store(tau1, output[..32]);
    Next(tau0, output, 2, key, data);
    Store(tau2, output[..32]);
  }

  method Kdf1(tau1: array<byte>, chainingKey: array<byte>, data: seq<byte>)
    requires tau1.Length == chainingKey.Length == 32
    modifies tau1
    ensures tau1[..] == Tau(old(chainingKey[..]), data, 1)
  {
    hide Hmac;
    var tau0, output := First(chainingKey[..], data);
    Store(tau1, output[..32]);
  }

  /** tau0 and tau1; tau1 is computed in place of its own one-byte input. */
  method First(key: seq<byte>, data: seq<byte>) returns (tau0: seq<byte>, output: array<byte>)
    requires |key| == 32
    ensures fresh(output) && output.Length == 33
    ensures tau0 == Tau(key, data, 0) && output[..32] == Tau(key, data, 1)
  {
    hide Hmac;
    var first := new byte[32];
    var text := new byte[|data|](i requires 0 <= i < |data| => data[i]);
    assert text[..|data|] == data;
    HmacInto(first, key, text, |data|);
    tau0 := first[..];
    output := new byte[33];
    output[0] := 1;
    assert output[..1] == [1];
    HmacInto(output, tau0, output, 1);
    assert output[..32] == Hmac(tau0, [1]);
  }

  /** `output[32] = i; hmac(output, tau0, output, 33)`. */
  method Next(tau0: seq<byte>, output: array<byte>, i: byte, ghost key: seq<byte>, ghost data: seq<byte>)
    requires output.Length == 33 && i >= 2
    requires tau0 == Tau(key, data, 0) && output[..32] == Tau(key, data, i - 1)
    modifies output
    ensures output[..32] == Tau(key, data, i)
  {
    hide Hmac;
    output[32] := i;
    assert output[..33] == Tau(key, data, i - 1) + [i];
    HmacInto(output, tau0, output, 33);
    assert output[..32] == Hmac(tau0, Tau(key, data, i - 1) + [i]);
  }

  /** wireguard_mix_hash */
  method MixHash(hash: array<byte>, src: seq<byte>)
    requires hash.Length == 32
    modifies hash
    ensures hash[..] == Digest(old(hash[..]) + src)
  {
    hide Digest;
    HashInto(hash, hash[..], src);
  }
}
