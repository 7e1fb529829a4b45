/** The authenticated encryption of RFC 7539 as its pseudo-code states it, step by step over
    bytes, and the proof that the definitions of `Aead` compute it. */
module AeadReference {
  import opened Bits
  import opened Bytes
  import opened ChaCha20
  import opened Poly1305
  import Poly1305Donna
  import Aead

  // Section 2.3: the state is sixteen little-endian words of one byte string

  function Loaded(s: seq<byte>): (w: seq<u32>)
    requires |s| == 64
    ensures |w| == 16
  {
    seq(16, i requires 0 <= i < 16 => Load32(s, 4 * i))
  }

  function StateOf(key: seq<byte>, counter: u32, nonce: u64): (s: seq<byte>)
    requires |key| == 32
    ensures |s| == 64
  {
    [0x65, 0x78, 0x70, 0x61, 0x6e, 0x64, 0x20, 0x33, 0x32, 0x2d, 0x62, 0x79, 0x74, 0x65, 0x20, 0x6b]
    + key + ToLE(4, counter) + [0, 0, 0, 0] + ToLE(8, nonce)
  }

  function KeyStream(key: seq<byte>, counter: u32, nonce: u64): (t: seq<byte>)
    requires |key| == 32
    ensures |t| == 64
  {
    Block(Loaded(StateOf(key, counter, nonce)))
  }

  // Section 2.4.1: block by block, the counter going up by one

  function ChaCha20Encrypt(key: seq<byte>, counter: u32, nonce: u64, text: seq<byte>): (c: seq<byte>)
    requires |key| == 32
    ensures |c| == |text|
    decreases |text|
  {
    hide KeyStream;
    if |text| <= 64 then XorBytes(text, KeyStream(key, counter, nonce)[..|text|])
    else
      XorBytes(text[..64], KeyStream(key, counter, nonce))
      + ChaCha20Encrypt(key, (counter + 1) % TWO32, nonce, text[64..])
  }

  // Section 2.5.1

  const CLAMP: nat := 0x0fff_fffc_0fff_fffc_0fff_fffc_0fff_ffff

  /** `n = le_bytes_to_num(block | [0x01]); a = (r * (a + n)) % p` for every block. */
  function Accumulated(r: nat, a: nat, m: seq<byte>): nat
    decreases |m|
  {
    if m == [] then a
    else
      var k := if |m| < 16 then |m| else 16;
      Accumulated(r, r * (a + FromLE(m[..k] + [1])) % 0x3_ffff_ffff_ffff_ffff_ffff_ffff_ffff_fffb, m[k..])
  }

  function Poly1305Mac(m: seq<byte>, key: seq<byte>): (t: seq<byte>)
    requires |key| == 32
    ensures |t| == 16
  {
    var r := And(FromLE(key[..16]), CLAMP);
    var s := FromLE(key[16..]);
    ToLE(16, Accumulated(r, 0, m) + s)
  }

  // Section 2.8

  function Pad16(x: seq<byte>): seq<byte> {
    if |x| % 16 == 0 then [] else Zeros(16 - |x| % 16)
  }

  function AeadEncrypt(aad: seq<byte>, key: seq<byte>, nonce: u64, text: seq<byte>): seq<byte>
    requires |key| == 32
  {
    var otk := KeyStream(key, 0, nonce)[..32];
    var c := ChaCha20Encrypt(key, 1, nonce, text);
    c + Poly1305Mac(aad + Pad16(aad) + c + Pad16(c) + ToLE(8, |aad|) + ToLE(8, |c|), otk)
  }

  /** The 192-bit-nonce form: a subkey from the first 16 nonce bytes, and the other eight as
      nonce (section 2.3 of draft-irtf-cfrg-xchacha). */
  function XAeadEncrypt(aad: seq<byte>, key: seq<byte>, nonce: seq<byte>, text: seq<byte>): seq<byte>
    requires |key| == 32 && |nonce| == 24
  {
    hide HChaCha, AeadEncrypt, FromLE;
    AeadEncrypt(aad, HChaCha(nonce[..16], key), FromLE(nonce[16..24]) % 0x1_0000_0000_0000_0000, text)
  }

  // The key stream

  lemma {:induction false} LoadedBack(w: seq<u32>, k: nat)
    requires k < |w|
    ensures 4 * k + 4 <= |Serialise(w)| && Load32(Serialise(w), 4 * k) == w[k]
    decreases |w|
  {
    hide ToLE;
    var n := |w| - 1;
    var a := Serialise(w[..n]);
    if k < n {
      LoadedBack(w[..n], k);
      assert forall j :: 0 <= j < 4 * n ==> Serialise(w)[j] == a[j];
    } else {
      Load32IsFromLE(Serialise(w), 4 * n);
      assert Serialise(w)[4 * n..4 * n + 4] == ToLE(4, w[n]);
      assert Pow256(4) == TWO32;
      DecodeEncode(4, w[n]);
    }
  }

  lemma LoadedSerialised(w: seq<u32>)
    requires |w| == 16
    ensures Loaded(Serialise(w)) == w
  {
    hide Load32, Serialise;
    forall k | 0 <= k < 16 ensures Loaded(Serialise(w))[k] == w[k] {
      LoadedBack(w, k);
    }
  }

  lemma KeyStreamIs(key: seq<byte>, counter: u32, nonce: u64)
    requires |key| == 32
    ensures KeyStream(key, counter, nonce) == Block(Counted(InitialState(key, nonce), counter))
  {
    hide Block, Serialise, Loaded, Load32, ToLE;
    var w := Counted(InitialState(key, nonce), counter);
    StateBytes(key, nonce, counter);
    assert Zeros(4) == [0, 0, 0, 0];
    LoadedSerialised(w);
    assert Serialise(w) == StateOf(key, counter, nonce);
  }

  // The ciphertext

  lemma EncryptShort(state: seq<u32>, text: seq<byte>)
    requires |state| == 16 && |text| <= 64
    ensures Encrypt(state, text) == XorBytes(text, Block(Counted(state, 0))[..|text|])
  {
    hide Block, XorByte, Counted;
    var c, d := Encrypt(state, text), XorBytes(text, Block(Counted(state, 0))[..|text|]);
    forall i | 0 <= i < |text| ensures c[i] == d[i] {
      assert i / 64 == 0 && i % 64 == i;
    }
  }

  lemma {:induction false} EncryptIs(key: seq<byte>, counter: u32, nonce: u64, text: seq<byte>)
    requires |key| == 32
    ensures ChaCha20Encrypt(key, counter, nonce, text) == Encrypt(Counted(InitialState(key, nonce), counter), text)
    decreases |text|
  {
    hide Block, InitialState, Encrypt, KeyStream, XorBytes;
    var state := InitialState(key, nonce);
    KeyStreamIs(key, counter, nonce);
    CountedTwice(state, counter, 0);
    if |text| <= 64 {
      EncryptShort(Counted(state, counter), text);
    } else {
      EncryptShort(Counted(state, counter), text[..64]);
      assert KeyStream(key, counter, nonce)[..64] == KeyStream(key, counter, nonce);
      assert text == text[..64] + text[64..];
      EncryptSplit(Counted(state, counter), text[..64], text[64..]);
      CountedTwice(state, counter, 1);
      CountedWraps(state, counter + 1);
      EncryptIs(key, (counter + 1) % TWO32, nonce, text[64..]);
    }
  }

  lemma CountedWraps(state: seq<u32>, k: nat)
    requires |state| == 16
    ensures Counted(state, k % TWO32) == Counted(state, k)
  {
    ModAddMultiple(state[12] + k % TWO32, TWO32, k / TWO32);
  }

  // The authenticator

  lemma AndDigit(b: byte, m: byte, x: nat, y: nat)
    ensures And(b + 256 * x, m + 256 * y) == And(b, m) + 256 * And(x, y)
  {
    Pow2Values();
    hide And, Shr, Pow2;
    AndSplit(b + 256 * x, m + 256 * y, y, m, 8);
    DivPow2(b + 256 * x, 8);
    FirstDigit(b, x);
  }

  /** Masking goes byte by byte. */
  lemma {:induction false} AndBytes(s: seq<byte>, m: seq<byte>, c: seq<byte>)
    requires |s| == |m| == |c| && forall i :: 0 <= i < |s| ==> And(s[i], m[i]) == c[i]
    ensures And(FromLE(s), FromLE(m)) == FromLE(c)
    decreases |s|
  {
    hide And;
    if s == [] {
      AndZero(0);
    } else {
      AndBytes(s[1..], m[1..], c[1..]);
      AndDigit(s[0], m[0], FromLE(s[1..]), FromLE(m[1..]));
    }
  }

  const MASK: seq<byte> := [
    0xff, 0xff, 0xff, 0x0f, 0xfc, 0xff, 0xff, 0x0f, 0xfc, 0xff, 0xff, 0x0f, 0xfc, 0xff, 0xff, 0x0f]

  lemma MaskValue()
    ensures FromLE(MASK) == CLAMP
  {
    assert Load32(MASK, 0) == 0x0fff_ffff && Load32(MASK, 4) == Load32(MASK, 8) == Load32(MASK, 12) == 0x0fff_fffc;
    Poly1305Donna.FromLEOf16(MASK);
  }

  lemma MaskedByte(b: byte, m: byte)
    requires m == 0xff || m == 0x0f || m == 0xfc
    ensures And(b, m) == if m == 0xff then b else if m == 0x0f then b % 16 else b - b % 4
  {
    hide And, Shr;
    Pow2Values();
    Pow2Add(2, 2);
    Pow2Add(2, 4);
    if m == 0xfc {
      hide Pow2;
      var high, none := m / 4, m % 4;
      AndSplit(b, m, high, none, 2);
      DivPow2(b, 2);
      AndZero(b % 4);
      AndLowMask(b / 4, 6);
    } else {
      AndLowMask(b, if m == 0xff then 8 else 4);
    }
  }

  lemma MaskAt(i: nat)
    requires i < 16
    ensures MASK[i] == if i % 4 == 3 then 0x0f else if i % 4 == 0 && i > 0 then 0xfc else 0xff
  {
  }

  lemma ClampIs(key: seq<byte>)
    requires |key| == 32
    ensures ClampedR(key) == And(FromLE(key[..16]), CLAMP)
  {
    hide And, FromLE;
    var c := ClampedKey(key);
    forall i | 0 <= i < 16 ensures And(key[..16][i], MASK[i]) == c[i] {
      MaskAt(i);
      MaskedByte(key[i], MASK[i]);
    }
    MaskValue();
    AndBytes(key[..16], MASK, c);
  }

  lemma BlockNumber(chunk: seq<byte>)
    ensures FromLE(chunk + [1]) == Coefficient(chunk)
  {
    FromLEAppend(chunk, [1]);
    assert [1][1..] == [] && FromLE([]) == 0;
  }

  lemma {:induction false} AccumulatedIs(r: nat, a: nat, m: seq<byte>)
    ensures Accumulated(r, a, m) == Horner(r, a, m)
    decreases |m|
  {
    hide FromLE, Coefficient;
    if m != [] {
      var k := ChunkLength(m);
      BlockNumber(m[..k]);
      AccumulatedIs(r, Step(r, a, Coefficient(m[..k])), m[k..]);
    }
  }

  lemma {:induction false} ToLELow(n: nat, v: nat)
    ensures ToLE(n, v % Pow256(n)) == ToLE(n, v)
    decreases n
  {
    if n > 0 {
      LowDigits(v, Pow256(n - 1));
      ToLELow(n - 1, v / 256);
    }
  }

  lemma LowDigits(v: nat, p: nat)
    requires p > 0
    ensures v % (256 * p) % 256 == v % 256 && v % (256 * p) / 256 == v / 256 % p
  {
    var q, t := v / 256 / p, v / 256 % p;
    assert v == 256 * (p * q + t) + v % 256;
    MulAssoc(256, p, q);
    ModUnique(v, 256 * p, q, 256 * t + v % 256);
    FirstDigit(v % 256, t);
  }

  lemma MacIs(m: seq<byte>, key: seq<byte>)
    requires |key| == 32
    ensures Poly1305Mac(m, key) == Tag(key, m)
  {
    hide ToLE, FromLE, Evaluate, Horner, Accumulated, ClampedR, And;
    ClampIs(key);
    var r, s := ClampedR(key), FromLE(key[16..]);
    AccumulatedIs(r, 0, m);
    HornerEvaluates(r, 0, m);
    Pow256At16();
    ToLELow(16, Accumulated(r, 0, m) + s);
  }

  /** Sealing is the pseudo-code of section 2.8, for every key, nonce, associated data and text. */
  lemma SealIsStandard(key: seq<byte>, nonce: u64, ad: seq<byte>, text: seq<byte>)
    requires |key| == 32
    ensures Aead.Seal(key, nonce, ad, text) == AeadEncrypt(ad, key, nonce, text)
  {
    hide Block, InitialState, Encrypt, Counted, KeyStream, Poly1305Mac, Tag, ToLE, ChaCha20Encrypt;
    KeyStreamIs(key, 0, nonce);
    CountedZero(InitialState(key, nonce));
    EncryptIs(key, 1, nonce, text);
    var c := Aead.Cipher(key, nonce, text);
    assert Pad16(ad) == Aead.Padding(|ad|) && Pad16(c) == Aead.Padding(|c|);
    MacIs(Aead.MacInput(ad, c, |c|), Aead.OneTimeKey(key, nonce));
  }

  lemma XSealIsStandard(key: seq<byte>, nonce: seq<byte>, ad: seq<byte>, text: seq<byte>)
    requires |key| == 32 && |nonce| == 24
    ensures Aead.XSeal(key, nonce, ad, text) == XAeadEncrypt(ad, key, nonce, text)
  {
    hide Aead.Seal, AeadEncrypt, FromLE;
    assert nonce[16..24] == nonce[16..];
    SubkeyPrefix(nonce, key);
    ModUnique(Aead.XNonce(nonce), 0x1_0000_0000_0000_0000, 0, Aead.XNonce(nonce));
    SealIsStandard(HChaCha(nonce, key), Aead.XNonce(nonce), ad, text);
  }

  lemma SubkeyPrefix(nonce: seq<byte>, key: seq<byte>)
    requires |nonce| >= 16 && |key| == 32
    ensures HChaCha(nonce[..16], key) == HChaCha(nonce, key)
  {
    hide Rounds, ToLE, Value, Setup, ToWords;
    assert Load32(nonce[..16], 0) == Load32(nonce, 0) && Load32(nonce[..16], 4) == Load32(nonce, 4);
    assert Load32(nonce[..16], 8) == Load32(nonce, 8) && Load32(nonce[..16], 12) == Load32(nonce, 12);
    hide Load32;
  }
}
