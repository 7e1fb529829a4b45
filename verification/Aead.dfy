/** AEAD_CHACHA20_POLY1305 of section 2.8 of RFC 7539 and its 192-bit-nonce variant, as
    chacha20poly1305.c computes them over byte buffers, in place or not. */
module Aead {
  import opened Bits
  import opened Bytes
  import opened Wrappers
  import ChaCha20
  import opened Limbs26
  import opened Poly1305Donna
  import Poly1305

  // The construction

  function Padding(n: nat): (s: seq<byte>) {
    Zeros((16 - n % 16) % 16)
  }

  /** The string that is authenticated. The last field is the length of the ciphertext
      as the caller encodes it. */
  function MacInput(ad: seq<byte>, c: seq<byte>, lengthField: nat): seq<byte> {
    ad + Padding(|ad|) + c + Padding(|c|) + ToLE(8, |ad|) + ToLE(8, lengthField)
  }

  /** Section 2.6 of RFC 7539. */
  function OneTimeKey(key: seq<byte>, nonce: u64): (k: seq<byte>)
    requires |key| == 32
    ensures |k| == 32
  {
    ChaCha20.Block(ChaCha20.InitialState(key, nonce))[..32]
  }

  function Cipher(key: seq<byte>, nonce: u64, text: seq<byte>): (c: seq<byte>)
    requires |key| == 32
    ensures |c| == |text|
  {
    ChaCha20.Encrypt(ChaCha20.Counted(ChaCha20.InitialState(key, nonce), 1), text)
  }

  function Mac(key: seq<byte>, nonce: u64, ad: seq<byte>, c: seq<byte>, lengthField: nat): (t: seq<byte>)
    requires |key| == 32
    ensures |t| == 16
  {
    Poly1305.Tag(OneTimeKey(key, nonce), MacInput(ad, c, lengthField))
  }

  /** Section 2.8 of RFC 7539, encryption. */
  function Seal(key: seq<byte>, nonce: u64, ad: seq<byte>, text: seq<byte>): (box: seq<byte>)
    requires |key| == 32
    ensures |box| == |text| + 16
  {
    var c := Cipher(key, nonce, text);
    c + Mac(key, nonce, ad, c, |c|)
  }

  /** `int dst_len = src_len - 16` and `(uint64_t)dst_len`: the sign bit is extended. */
  function SignExtended(n: u32): u64 {
    if n < 0x8000_0000 then n else n + 0xffff_ffff_0000_0000
  }

  /** Section 2.8 of RFC 7539, decryption, with the length field as the code computes it. */
  function Open(key: seq<byte>, nonce: u64, ad: seq<byte>, box: seq<byte>): (text: Option<seq<byte>>)
    requires |key| == 32 && |box| < TWO32
    ensures text.Some? ==> |text.value| + 16 == |box|
  {
    if |box| < 16 then None
    else
      var c := box[..|box| - 16];
      if box[|box| - 16..] == Mac(key, nonce, ad, c, SignExtended(|c|)) then Some(Cipher(key, nonce, c)) else None
  }

  // Texts of 2^31 bytes and more

  /** What the sign extension adds to the last block. */
  const LENGTH_GAP: nat := 0xffff_ffff_0000_0000_0000_0000_0000_0000

  /** Everything that is authenticated before the two lengths. */
  function MacHead(ad: seq<byte>, c: seq<byte>): seq<byte> {
    ad + Padding(|ad|) + c + Padding(|c|)
  }

  lemma HeadAligned(ad: seq<byte>, c: seq<byte>)
    ensures |MacHead(ad, c)| % 16 == 0
  {
    hide Padding;
    var x := Padded(|ad|);
    var y := Padded(|c|);
    ModUnique(|MacHead(ad, c)|, 16, x + y, 0);
  }

  lemma Padded(n: nat) returns (q: nat)
    ensures n + |Padding(n)| == 16 * q
  {
    q := (n + 15) / 16;
  }

  lemma MacBlocks(ad: seq<byte>, c: seq<byte>, lengthField: nat)
    ensures MacInput(ad, c, lengthField) == MacHead(ad, c) + (ToLE(8, |ad|) + ToLE(8, lengthField))
  {
    hide ToLE, Padding;
  }

  /** The last block with the sign-extended length is larger by the gap. */
  lemma LengthBlocks(a: seq<byte>, n: u32)
    requires |a| == 8 && n >= 0x8000_0000
    ensures FromLE(a + ToLE(8, SignExtended(n))) == FromLE(a + ToLE(8, n)) + LENGTH_GAP
  {
    assert Pow256(4) == 0x1_0000_0000;
    assert Pow256(8) == 0x1_0000_0000_0000_0000;
    hide ToLE, FromLE;
    FromLEAppend(a, ToLE(8, n));
    FromLEAppend(a, ToLE(8, SignExtended(n)));
    DecodeEncode(8, n);
    DecodeEncode(8, SignExtended(n));
  }

  /** The two directions evaluate to values that differ by r times the gap. */
  lemma LongEvaluations(r: nat, ad: seq<byte>, c: seq<byte>)
    requires 0x8000_0000 <= |c| < TWO32
    ensures Poly1305.Evaluate(r, MacInput(ad, c, SignExtended(|c|))) % P
         == (Poly1305.Evaluate(r, MacInput(ad, c, |c|)) % P + r * LENGTH_GAP) % P
  {
    hide ToLE, FromLE, MacInput, MacHead, SignExtended, Poly1305.Evaluate;
    var a := ToLE(8, |ad|);
    MacBlocks(ad, c, |c|);
    MacBlocks(ad, c, SignExtended(|c|));
    LengthBlocks(a, |c|);
    HeadAligned(ad, c);
    Poly1305.LastBlockDiffers(r, MacHead(ad, c), a + ToLE(8, |c|), a + ToLE(8, SignExtended(|c|)), LENGTH_GAP);
  }

  /** The gap times r, reduced. It depends on the one-time key alone. */
  function KeyGap(oneTimeKey: seq<byte>): (g: nat)
    requires |oneTimeKey| == 32
    ensures g < P
  {
    Poly1305.ClampedR(oneTimeKey) * LENGTH_GAP % P
  }

  /** Decryption computes the tag of encryption: the length fits the signed variable, or the
      gap does not show in the low 128 bits of the tag's reduced value h, with or without a
      wrap-around at 2^130 - 5. */
  predicate SameTag(oneTimeKey: seq<byte>, ad: seq<byte>, c: seq<byte>)
    requires |oneTimeKey| == 32
  {
    var g := KeyGap(oneTimeKey);
    var h := Poly1305.Evaluate(Poly1305.ClampedR(oneTimeKey), MacInput(ad, c, |c|)) % P;
    |c| < 0x8000_0000 || g % TWO128 == if h + g < P then 0 else TWO128 - 5
  }

  /** The gap shows whatever is authenticated. At most eight values of the gap escape. */
  predicate GapShows(oneTimeKey: seq<byte>)
    requires |oneTimeKey| == 32
  {
    KeyGap(oneTimeKey) % TWO128 != 0 && KeyGap(oneTimeKey) % TWO128 != TWO128 - 5
  }

  lemma GapLands(h: nat, g: nat)
    requires h < P && g < P
    ensures (h + g) % P % TWO128 == h % TWO128 <==> g % TWO128 == if h + g < P then 0 else TWO128 - 5
  {
    if h + g < P {
      ModUnique(h + g, P, 0, h + g);
      SameLow(h, g);
    } else {
      ModUnique(h + g, P, 1, h + g - P);
      SameLow(h, g - P);
      FiveMore(g);
    }
  }

  lemma SameLow(h: int, x: int)
    ensures (h + x) % TWO128 == h % TWO128 <==> x % TWO128 == 0
  {
  }

  lemma FiveMore(g: int)
    ensures (g - P) % TWO128 == 0 <==> g % TWO128 == TWO128 - 5
  {
    assert g - P == g + 5 - 4 * TWO128;
  }

  lemma TagsEqual(x: nat, y: nat, s: nat)
    ensures ToLE(16, (x + s) % TWO128) == ToLE(16, (y + s) % TWO128) <==> x % TWO128 == y % TWO128
  {
    Poly1305.Pow256At16();
    DecodeEncode(16, (x + s) % TWO128);
    DecodeEncode(16, (y + s) % TWO128);
    hide ToLE;
    SumsEqual(x, y, s);
  }

  lemma SumsEqual(x: nat, y: nat, s: nat)
    ensures (x + s) % TWO128 == (y + s) % TWO128 <==> x % TWO128 == y % TWO128
  {
  }

  lemma SameTagExactly(oneTimeKey: seq<byte>, ad: seq<byte>, c: seq<byte>)
    requires |oneTimeKey| == 32 && |c| < TWO32
    ensures Poly1305.Tag(oneTimeKey, MacInput(ad, c, |c|))
            == Poly1305.Tag(oneTimeKey, MacInput(ad, c, SignExtended(|c|)))
       <==> SameTag(oneTimeKey, ad, c)
  {
    if |c| >= 0x8000_0000 {
      var r := Poly1305.ClampedR(oneTimeKey);
      LongEvaluations(r, ad, c);
      TagsAgree(oneTimeKey, MacInput(ad, c, |c|), MacInput(ad, c, SignExtended(|c|)));
      hide Poly1305.Evaluate, Poly1305.Tag, MacInput, Poly1305.ClampedR, SignExtended;
      LowBitsAgree(r, Poly1305.Evaluate(r, MacInput(ad, c, |c|)) % P);
    }
  }

  lemma LowBitsAgree(r: nat, h: nat)
    requires h < P
    ensures var g := r * LENGTH_GAP % P;
            (h + r * LENGTH_GAP) % P % TWO128 == h % TWO128 <==> g % TWO128 == if h + g < P then 0 else TWO128 - 5
  {
    Poly1305.ModPlus(r * LENGTH_GAP, h);
    GapLands(h, r * LENGTH_GAP % P);
  }

  lemma TagsAgree(oneTimeKey: seq<byte>, m: seq<byte>, n: seq<byte>)
    requires |oneTimeKey| == 32
    ensures var r := Poly1305.ClampedR(oneTimeKey);
            Poly1305.Tag(oneTimeKey, m) == Poly1305.Tag(oneTimeKey, n) <==>
            Poly1305.Evaluate(r, m) % P % TWO128 == Poly1305.Evaluate(r, n) % P % TWO128
  {
    hide Poly1305.Evaluate, Poly1305.ClampedR, ToLE, FromLE;
    var r := Poly1305.ClampedR(oneTimeKey);
    TagsEqual(Poly1305.Evaluate(r, m) % P, Poly1305.Evaluate(r, n) % P, FromLE(oneTimeKey[16..]));
  }

  /** The exact verdict of decryption on a sealed box, for every text that a 32-bit length can
      describe: the text comes back if and only if both directions compute the same tag. */
  lemma OpenSealExactly(key: seq<byte>, nonce: u64, ad: seq<byte>, text: seq<byte>)
    requires |key| == 32 && |text| + 16 < TWO32
    ensures Open(key, nonce, ad, Seal(key, nonce, ad, text))
         == if SameTag(OneTimeKey(key, nonce), ad, Cipher(key, nonce, text)) then Some(text) else None
  {
    hide OneTimeKey, SameTag, Poly1305.Tag, MacInput, ChaCha20.Encrypt, ChaCha20.Counted, ChaCha20.InitialState;
    var box, c := Seal(key, nonce, ad, text), Cipher(key, nonce, text);
    assert box[..|box| - 16] == c;
    SameTagExactly(OneTimeKey(key, nonce), ad, c);
    ChaCha20.EncryptInvolution(ChaCha20.Counted(ChaCha20.InitialState(key, nonce), 1), text);
  }

  /** In particular every text whose length fits the signed length variable comes back. */
  lemma OpenSeal(key: seq<byte>, nonce: u64, ad: seq<byte>, text: seq<byte>)
    requires |key| == 32 && |text| < 0x8000_0000
    ensures Open(key, nonce, ad, Seal(key, nonce, ad, text)) == Some(text)
  {
    OpenSealExactly(key, nonce, ad, text);
    hide Open, Seal, Cipher, OneTimeKey;
  }

  /** A condition on key and nonce alone: if the gap shows in the one-time key, no text of
      2^31 bytes or more comes back. */
  lemma LongTextsRejected(key: seq<byte>, nonce: u64, ad: seq<byte>, text: seq<byte>)
    requires |key| == 32 && 0x8000_0000 <= |text| < TWO32 - 16 && GapShows(OneTimeKey(key, nonce))
    ensures Open(key, nonce, ad, Seal(key, nonce, ad, text)) == None
  {
    hide Open, Seal, Cipher, OneTimeKey, KeyGap, MacInput, Poly1305.Evaluate;
    OpenSealExactly(key, nonce, ad, text);
  }

  /** If r is zero, every text comes back. No key is shown to have such an r. */
  lemma ZeroGapKept(key: seq<byte>, nonce: u64, ad: seq<byte>, text: seq<byte>)
    requires |key| == 32 && |text| + 16 < TWO32 && Poly1305.ClampedR(OneTimeKey(key, nonce)) == 0
    ensures Open(key, nonce, ad, Seal(key, nonce, ad, text)) == Some(text)
  {
    hide Open, Seal, Cipher, OneTimeKey, MacInput, Poly1305.Evaluate, Poly1305.ClampedR;
    OpenSealExactly(key, nonce, ad, text);
  }

  /** An accepted box is the unique box for its text, nothing else opens to it, if and only if
      both directions compute the same tag for it. */
  lemma OpenIsSeal(key: seq<byte>, nonce: u64, ad: seq<byte>, box: seq<byte>)
    requires |key| == 32 && |box| < TWO32 && Open(key, nonce, ad, box).Some?
    ensures box == Seal(key, nonce, ad, Open(key, nonce, ad, box).value)
       <==> SameTag(OneTimeKey(key, nonce), ad, box[..|box| - 16])
  {
    hide OneTimeKey, SameTag, Poly1305.Tag, MacInput, ChaCha20.Encrypt, ChaCha20.Counted, ChaCha20.InitialState;
    var c := box[..|box| - 16];
    ChaCha20.EncryptInvolution(ChaCha20.Counted(ChaCha20.InitialState(key, nonce), 1), c);
    SameTagExactly(OneTimeKey(key, nonce), ad, c);
    assert box == c + box[|box| - 16..];
    assert (c + Mac(key, nonce, ad, c, |c|))[|c|..] == Mac(key, nonce, ad, c, |c|);
  }

  // XChaCha20-Poly1305

  function XNonce(nonce: seq<byte>): u64
    requires |nonce| == 24
  {
    FromLEBound(nonce[16..]);
    assert Pow256(4) == 0x1_0000_0000;
    assert Pow256(8) == 0x1_0000_0000_0000_0000;
    FromLE(nonce[16..])
  }

  function XSeal(key: seq<byte>, nonce: seq<byte>, ad: seq<byte>, text: seq<byte>): (box: seq<byte>)
    requires |key| == 32 && |nonce| == 24
    ensures |box| == |text| + 16
  {
    Seal(ChaCha20.HChaCha(nonce, key), XNonce(nonce), ad, text)
  }

  function XOpen(key: seq<byte>, nonce: seq<byte>, ad: seq<byte>, box: seq<byte>): (text: Option<seq<byte>>)
    requires |key| == 32 && |nonce| == 24 && |box| < TWO32
    ensures text.Some? ==> |text.value| + 16 == |box|
  {
    Open(ChaCha20.HChaCha(nonce, key), XNonce(nonce), ad, box)
  }

  lemma XOpenSeal(key: seq<byte>, nonce: seq<byte>, ad: seq<byte>, text: seq<byte>)
    requires |key| == 32 && |nonce| == 24 && |text| < 0x8000_0000
    ensures XOpen(key, nonce, ad, XSeal(key, nonce, ad, text)) == Some(text)
  {
    hide Seal, Open;
    OpenSeal(ChaCha20.HChaCha(nonce, key), XNonce(nonce), ad, text);
  }

  lemma XOpenSealExactly(key: seq<byte>, nonce: seq<byte>, ad: seq<byte>, text: seq<byte>)
    requires |key| == 32 && |nonce| == 24 && |text| + 16 < TWO32
    ensures var k, n := ChaCha20.HChaCha(nonce, key), XNonce(nonce);
            XOpen(key, nonce, ad, XSeal(key, nonce, ad, text)) ==
            if SameTag(OneTimeKey(k, n), ad, Cipher(k, n, text)) then Some(text) else None
  {
    hide Seal, Open, SameTag, Cipher, OneTimeKey;
    OpenSealExactly(ChaCha20.HChaCha(nonce, key), XNonce(nonce), ad, text);
  }

  // The implementation

  /** `((len + 15) & 0xFFFFFFF0) - len` in 32-bit arithmetic. */
  lemma PadLength(n: u32)
    ensures (And((n + 15) % TWO32, 0xffff_fff0) - n) % TWO32 == (16 - n % 16) % 16
  {
    var x := (n + 15) % TWO32;
    Pow2Values();
    Pow2Add(24, 4);
    AndSplit(x, 0xffff_fff0, 0xfff_ffff, 0, 4);
    DivPow2(x, 4);
    AndLowMask(x / 16, 28);
    AndZero(x % 16);
    RoundUp(n, x, And(x, 0xffff_fff0));
  }

  lemma RoundUp(n: u32, x: nat, m: nat)
    requires x == (n + 15) % TWO32 && m == x / 16 % 0x1000_0000 * 16
    ensures (m - n) % TWO32 == (16 - n % 16) % 16
  {
    if n + 15 >= TWO32 {
      ModUnique(n + 15, TWO32, 1, n + 15 - TWO32);
      RoundUpAbove(n);
    } else {
      ModUnique(n + 15, TWO32, 0, n + 15);
      RoundUpBelow(n, m);
    }
  }

  lemma RoundUpAbove(n: u32)
    requires n + 15 >= TWO32
    ensures (0 - n) % TWO32 == (16 - n % 16) % 16
  {
    var e := TWO32 - n;
    ModUnique(0 - n, TWO32, -1, e);
    ModUnique(n, 16, 0xfff_ffff, 16 - e);
  }

  lemma RoundUpBelow(n: u32, m: nat)
    requires n + 15 < TWO32 && m == (n + 15) / 16 % 0x1000_0000 * 16
    ensures (m - n) % TWO32 == (16 - n % 16) % 16
  {
    var q, r := n / 16, n % 16;
    var d := if r == 0 then 0 else 1;
    ModUnique(n + 15, 16, q + d, r + 15 - 16 * d);
    ModUnique(q + d, 0x1000_0000, 0, q + d);
    ModUnique(m - n, TWO32, 0, 16 * d - r);
  }

  /** crypto_equal */
  method Equal(a: seq<byte>, b: seq<byte>, size: nat) returns (equal: bool)
    requires |a| == |b| == size
    ensures equal <==> a == b
  {
    hide XorByte;
    var neq: byte := 0;
    for i := 0 to size
      invariant neq == 0 <==> a[..i] == b[..i]
    {
      XorByteZeroIff(a[i], b[i]);
      OrByte(neq, XorByte(a[i], b[i]));
      assert a[..i + 1] == a[..i] + [a[i]] && b[..i + 1] == b[..i] + [b[i]];
      neq := Or(neq, XorByte(a[i], b[i]));
    }
    assert a[..size] == a && b[..size] == b;
    equal := neq == 0;
  }

  lemma XorByteZeroIff(a: byte, b: byte)
    ensures XorByte(a, b) == 0 <==> a == b
  {
    XorZeroIff(a, b);
  }

  lemma OrByte(x: byte, y: byte)
    ensures Or(x, y) < 256
    ensures Or(x, y) == 0 <==> x == 0 && y == 0
  {
    Pow2Values();
    OrBound(x, y, 8);
    OrZeroIff(x, y);
  }

  lemma XorZeros(state: seq<u32>)
    requires |state| == 16
    ensures ChaCha20.Encrypt(state, Zeros(32)) == ChaCha20.Block(state)[..32]
  {
    hide ChaCha20.Block;
    ChaCha20.CountedZero(state);
    forall i | 0 <= i < 32 ensures ChaCha20.Encrypt(state, Zeros(32))[i] == ChaCha20.Block(state)[i] {
      XorLeftZero(ChaCha20.Block(state)[i]);
    }
  }

  lemma {:induction false} XorLeftZero(y: nat)
    ensures Xor(0, y) == y
  {
    if y > 0 { XorLeftZero(y / 2); }
  }

  /** generate_poly1305_key */
  method GeneratePoly1305Key(poly: Poly1305State, chacha: ChaCha20.ChaCha20Context, key: seq<byte>, nonce: u64)
    requires |key| == 32 && chacha.Valid() && poly.buffer.Length == 16
    modifies poly, chacha.state
    ensures poly.Valid() && poly.key == OneTimeKey(key, nonce) && poly.fed == []
    ensures chacha.state[..] == ChaCha20.Counted(ChaCha20.InitialState(key, nonce), 1)
  {
    hide ChaCha20.Block, ChaCha20.Encrypt, ChaCha20.InitialState, ChaCha20.Counted, Poly1305State.Valid;
    var block := new byte[32](_ => 0);
    assert block[..] == Zeros(32);
    chacha.Init(key, nonce);
    XorZeros(chacha.state[..]);
    assert block[0..32] == block[..];
    chacha.Crypt(block, 0, block, 0, 32);
    WholeSplice(block[..], OneTimeKey(key, nonce));
    poly.Init(block[..]);
  }

  /** The six updates that both directions feed to Poly1305. */
  method Authenticate(poly: Poly1305State, ad: seq<byte>, c: seq<byte>, lengthField: u64)
    requires poly.Valid() && poly.fed == [] && |ad| < TWO32 && |c| < TWO32
    modifies poly, poly.buffer
    ensures poly.Valid() && poly.key == old(poly.key)
    ensures poly.fed == MacInput(ad, c, lengthField)
  {
    hide Poly1305State.Valid, ToLE, Zeros;
    var pad1 := PaddingLength(|ad|);
    var pad2 := PaddingLength(|c|);
    poly.Update(ad);
    poly.Update(Zeros(pad1));
    poly.Update(c);
    poly.Update(Zeros(pad2));
    poly.Update(ToLE(8, |ad|));
    poly.Update(ToLE(8, lengthField));
  }

  /** `padded_len - len`, with `padded_len = (len + 15) & 0xFFFFFFF0`, on 32-bit sizes. */
  method PaddingLength(n: u32) returns (k: u32)
    ensures k == (16 - n % 16) % 16
  {
    PadLength(n);
    k := (And((n + 15) % TWO32, 0xffff_fff0) - n) % TWO32;
  }

  /** chacha20poly1305_encrypt: dst and src are different buffers or the same bytes of one. */
  method EncryptInto(dst: array<byte>, d: nat, src: array<byte>, s: nat, srcLen: u32,
                     ad: seq<byte>, nonce: u64, key: seq<byte>)
    requires |key| == 32 && |ad| < TWO32 && s + srcLen <= src.Length && d + srcLen + 16 <= dst.Length
    requires dst != src || d == s
    modifies dst
    ensures Overwritten(old(dst[..]), dst[..], d, Seal(key, nonce, ad, old(src[s..s + srcLen])))
  {
    hide ChaCha20.Block, ChaCha20.Encrypt, ChaCha20.InitialState, ChaCha20.Counted, Poly1305State.Valid;
    hide Poly1305.Tag, OneTimeKey, MacInput, Splice;
    ghost var text, before := src[s..s + srcLen], dst[..];
    var poly := new Poly1305State();
    var chacha := new ChaCha20.ChaCha20Context();
    GeneratePoly1305Key(poly, chacha, key, nonce);
    chacha.Crypt(dst, d, src, s, srcLen);
    ghost var c := Cipher(key, nonce, text);
    SpliceSlice(before, d, c);
    Authenticate(poly, ad, dst[d..d + srcLen], srcLen);
    poly.Finish(dst, d + srcLen);
    SpliceAdjacent(before, d, c, Mac(key, nonce, ad, c, |c|));
  }

  lemma SpliceSlice(t: seq<byte>, off: nat, x: seq<byte>)
    requires off + |x| <= |t|
    ensures Splice(t, off, x)[off..off + |x|] == x
  {
  }

  /** chacha20poly1305_decrypt */
  method DecryptInto(dst: array<byte>, d: nat, src: array<byte>, s: nat, srcLen: u32,
                     ad: seq<byte>, nonce: u64, key: seq<byte>) returns (result: bool)
    requires |key| == 32 && |ad| < TWO32 && s + srcLen <= src.Length && d + srcLen - 16 <= dst.Length
    requires dst != src || d == s
    modifies dst
    ensures var text := Open(key, nonce, ad, old(src[s..s + srcLen]));
            && result == text.Some?
            && dst[..] == if result then Splice(old(dst[..]), d, text.value) else old(dst[..])
  {
    hide ChaCha20.Block, ChaCha20.Encrypt, ChaCha20.InitialState, ChaCha20.Counted, Poly1305State.Valid;
    hide Poly1305.Tag, OneTimeKey, MacInput, Splice;
    ghost var box := src[s..s + srcLen];
    result := false;
    if srcLen >= 16 {
      var dstLen: u32 := srcLen - 16;
      assert src[s..s + dstLen] == box[..dstLen] && src[s + dstLen..s + srcLen] == box[dstLen..];
      var poly := new Poly1305State();
      var chacha := new ChaCha20.ChaCha20Context();
      GeneratePoly1305Key(poly, chacha, key, nonce);
      Authenticate(poly, ad, src[s..s + dstLen], SignExtended(dstLen));
      var mac := new byte[16];
      poly.Finish(mac, 0);
      WholeSplice(mac[..], Mac(key, nonce, ad, box[..dstLen], SignExtended(dstLen)));
      var equal := Equal(mac[..], src[s + dstLen..s + srcLen], 16);
      if equal {
        chacha.Crypt(dst, d, src, s, dstLen);
        result := true;
      }
    }
  }

  /** xchacha20poly1305_encrypt */
  method XEncryptInto(dst: array<byte>, d: nat, src: array<byte>, s: nat, srcLen: u32,
                      ad: seq<byte>, nonce: seq<byte>, key: seq<byte>)
    requires |key| == 32 && |nonce| == 24 && |ad| < TWO32
    requires s + srcLen <= src.Length && d + srcLen + 16 <= dst.Length
    requires dst != src || d == s
    modifies dst
    ensures Overwritten(old(dst[..]), dst[..], d, XSeal(key, nonce, ad, old(src[s..s + srcLen])))
  {
    hide Seal, XNonce, ChaCha20.HChaCha, Splice;
    var subkey := ChaCha20.HChaCha20(nonce, key);
    EncryptInto(dst, d, src, s, srcLen, ad, XNonce(nonce), subkey);
  }

  /** xchacha20poly1305_decrypt */
  method XDecryptInto(dst: array<byte>, d: nat, src: array<byte>, s: nat, srcLen: u32,
                      ad: seq<byte>, nonce: seq<byte>, key: seq<byte>) returns (result: bool)
    requires |key| == 32 && |nonce| == 24 && |ad| < TWO32
    requires s + srcLen <= src.Length && d + srcLen - 16 <= dst.Length
    requires dst != src || d == s
    modifies dst
    ensures var text := XOpen(key, nonce, ad, old(src[s..s + srcLen]));
            && result == text.Some?
            && dst[..] == if result then Splice(old(dst[..]), d, text.value) else old(dst[..])
  {
    hide Open, XNonce, ChaCha20.HChaCha, Splice;
    var subkey := ChaCha20.HChaCha20(nonce, key);
    result := DecryptInto(dst, d, src, s, srcLen, ad, XNonce(nonce), subkey);
  }

  lemma WholeSplice(t: seq<byte>, x: seq<byte>)
    requires |x| == |t|
    ensures forall u: seq<byte> :: |u| == |x| ==> Splice(u, 0, x) == x
  {
  }
}
