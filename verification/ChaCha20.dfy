/** ChaCha20: the block function of section 2.3 of RFC 7539 over 32-bit words and the
    counter-mode loop of chacha20.c over byte buffers, in place or not. */
module ChaCha20 {
  import opened Bits
  import opened Bytes

  // The permutation

  function Rotl(v: bv32, n: nat): bv32
    requires 0 < n < 32
  {
    (v << n) | (v >> (32 - n))
  }

  /** `x += y; z ^= x; z <<<= n`: the new x and z. */
  function AddXorRotate(x: bv32, y: bv32, z: bv32, n: nat): (bv32, bv32)
    requires 0 < n < 32
  {
    (x + y, Rotl(z ^ (x + y), n))
  }

  /** Section 2.1 of RFC 7539. */
  function QuarterRound(a: bv32, b: bv32, c: bv32, d: bv32): (bv32, bv32, bv32, bv32) {
    var (a1, d1) := AddXorRotate(a, b, d, 16);
    var (c1, b1) := AddXorRotate(c, d1, b, 12);
    var (a2, d2) := AddXorRotate(a1, b1, d1, 8);
    var (c2, b2) := AddXorRotate(c1, d2, b1, 7);
    (a2, b2, c2, d2)
  }

  function QuarterRoundOn(s: seq<bv32>, i: nat, j: nat, k: nat, l: nat): (t: seq<bv32>)
    requires |s| == 16 && i < 16 && j < 16 && k < 16 && l < 16
    ensures |t| == 16
  {
    var q := QuarterRound(s[i], s[j], s[k], s[l]);
    s[i := q.0][j := q.1][k := q.2][l := q.3]
  }

  /** Four column rounds, then four diagonal rounds. */
  function InnerBlock(s: seq<bv32>): (t: seq<bv32>)
    requires |s| == 16
    ensures |t| == 16
  {
    var c0 := QuarterRoundOn(s, 0, 4, 8, 12);
    var c1 := QuarterRoundOn(c0, 1, 5, 9, 13);
    var c2 := QuarterRoundOn(c1, 2, 6, 10, 14);
    var c3 := QuarterRoundOn(c2, 3, 7, 11, 15);
    var d0 := QuarterRoundOn(c3, 0, 5, 10, 15);
    var d1 := QuarterRoundOn(d0, 1, 6, 11, 12);
    var d2 := QuarterRoundOn(d1, 2, 7, 8, 13);
    QuarterRoundOn(d2, 3, 4, 9, 14)
  }

  function Rounds(s: seq<bv32>, n: nat): (t: seq<bv32>)
    requires |s| == 16
    ensures |t| == 16
  {
    if n == 0 then s else InnerBlock(Rounds(s, n - 1))
  }

  /** The output words: permuted state plus initial state. */
  function OutputWords(state: seq<u32>): (t: seq<u32>)
    requires |state| == 16
    ensures |t| == 16
  {
    var w := Rounds(ToWords(state), 10);
    seq(16, i requires 0 <= i < 16 => (Value(w[i]) + state[i]) % TWO32)
  }

  /** The 64-byte key stream block of section 2.3 of RFC 7539. */
  function Block(state: seq<u32>): (t: seq<byte>)
    requires |state| == 16
    ensures |t| == 64
  {
    Serialise(OutputWords(state))
  }

  // Counter mode

  /** The state k blocks further on: word 12 counts blocks modulo 2^32. */
  function Counted(state: seq<u32>, k: nat): (t: seq<u32>)
    requires |state| == 16
    ensures |t| == 16
  {
    state[12 := (state[12] + k) % TWO32]
  }

  /** Section 2.4 of RFC 7539: byte i of the output is byte i of the input masked with
      byte i % 64 of block i / 64. */
  function Encrypt(state: seq<u32>, text: seq<byte>): (c: seq<byte>)
    requires |state| == 16
    ensures |c| == |text|
  {
    seq(|text|, i requires 0 <= i < |text| => XorByte(text[i], Block(Counted(state, i / 64))[i % 64]))
  }

  /** Encrypting twice from one state restores the text. */
  lemma EncryptInvolution(state: seq<u32>, text: seq<byte>)
    requires |state| == 16
    ensures Encrypt(state, Encrypt(state, text)) == text
  {
    hide Block, XorByte;
    var c := Encrypt(state, text);
    forall i | 0 <= i < |text| ensures Encrypt(state, c)[i] == text[i] {
      XorByteCancel(text[i], Block(Counted(state, i / 64))[i % 64]);
    }
  }

  lemma XorByteCancel(a: byte, b: byte)
    ensures XorByte(XorByte(a, b), b) == a
  {
    XorCancel(a, b);
  }

  lemma CountedTwice(state: seq<u32>, j: nat, k: nat)
    requires |state| == 16
    ensures Counted(Counted(state, j), k) == Counted(state, j + k)
  {
    ModAddMultiple((state[12] + j) % TWO32 + k, TWO32, (state[12] + j) / TWO32);
  }

  /** Encryption may be cut at any multiple of 64 bytes if the state is carried over. */
  lemma EncryptSplit(state: seq<u32>, a: seq<byte>, b: seq<byte>)
    requires |state| == 16 && |a| % 64 == 0
    ensures Encrypt(state, a + b) == Encrypt(state, a) + Encrypt(Counted(state, |a| / 64), b)
  {
    hide Block, XorByte, Counted;
    var k := |a| / 64;
    var next := Counted(state, k);
    forall i | 0 <= i < |b| ensures Encrypt(state, a + b)[|a| + i] == Encrypt(next, b)[i] {
      assert (|a| + i) / 64 == k + i / 64 && (|a| + i) % 64 == i % 64;
      CountedTwice(state, k, i / 64);
    }
  }

  // The double round entry by entry

  lemma Columns(s: seq<bv32>)
    requires |s| == 16
    ensures var c0, c1 := QuarterRound(s[0], s[4], s[8], s[12]), QuarterRound(s[1], s[5], s[9], s[13]);
            var c2, c3 := QuarterRound(s[2], s[6], s[10], s[14]), QuarterRound(s[3], s[7], s[11], s[15]);
            var t0 := QuarterRoundOn(s, 0, 4, 8, 12);
            var t1 := QuarterRoundOn(t0, 1, 5, 9, 13);
            var t2 := QuarterRoundOn(t1, 2, 6, 10, 14);
            QuarterRoundOn(t2, 3, 7, 11, 15) == [c0.0, c1.0, c2.0, c3.0, c0.1, c1.1, c2.1, c3.1,
                                                 c0.2, c1.2, c2.2, c3.2, c0.3, c1.3, c2.3, c3.3]
  {
    hide QuarterRound;
  }

  lemma Diagonals(s: seq<bv32>)
    requires |s| == 16
    ensures var d0, d1 := QuarterRound(s[0], s[5], s[10], s[15]), QuarterRound(s[1], s[6], s[11], s[12]);
            var d2, d3 := QuarterRound(s[2], s[7], s[8], s[13]), QuarterRound(s[3], s[4], s[9], s[14]);
            var t0 := QuarterRoundOn(s, 0, 5, 10, 15);
            var t1 := QuarterRoundOn(t0, 1, 6, 11, 12);
            var t2 := QuarterRoundOn(t1, 2, 7, 8, 13);
            QuarterRoundOn(t2, 3, 4, 9, 14) == [d0.0, d1.0, d2.0, d3.0, d3.1, d0.1, d1.1, d2.1,
                                                d2.2, d3.2, d0.2, d1.2, d1.3, d2.3, d3.3, d0.3]
  {
    hide QuarterRound;
  }

  /** The double round entry by entry. */
  lemma InnerBlockIs(s: seq<bv32>)
    requires |s| == 16
    ensures var c0, c1 := QuarterRound(s[0], s[4], s[8], s[12]), QuarterRound(s[1], s[5], s[9], s[13]);
            var c2, c3 := QuarterRound(s[2], s[6], s[10], s[14]), QuarterRound(s[3], s[7], s[11], s[15]);
            var d0, d1 := QuarterRound(c0.0, c1.1, c2.2, c3.3), QuarterRound(c1.0, c2.1, c3.2, c0.3);
            var d2, d3 := QuarterRound(c2.0, c3.1, c0.2, c1.3), QuarterRound(c3.0, c0.1, c1.2, c2.3);
            InnerBlock(s) == [d0.0, d1.0, d2.0, d3.0, d3.1, d0.1, d1.1, d2.1,
                              d2.2, d3.2, d0.2, d1.2, d1.3, d2.3, d3.3, d0.3]
  {
    hide QuarterRound, QuarterRoundOn;
    var c0, c1 := QuarterRound(s[0], s[4], s[8], s[12]), QuarterRound(s[1], s[5], s[9], s[13]);
    var c2, c3 := QuarterRound(s[2], s[6], s[10], s[14]), QuarterRound(s[3], s[7], s[11], s[15]);
    Columns(s);
    Diagonals([c0.0, c1.0, c2.0, c3.0, c0.1, c1.1, c2.1, c3.1, c0.2, c1.2, c2.2, c3.2, c0.3, c1.3, c2.3, c3.3]);
  }

  // The implementation

  /** One line of QUARTERROUND on the words of a block. */
  function LineOn(s: seq<bv32>, i: nat, j: nat, l: nat, n: nat): (t: seq<bv32>)
    requires |s| == 16 && i < 16 && j < 16 && l < 16 && 0 < n < 32
    ensures |t| == 16
  {
    var x := AddXorRotate(s[i], s[j], s[l], n);
    s[i := x.0][l := x.1]
  }

  method LineAt(block: array<bv32>, i: nat, j: nat, l: nat, n: nat)
    requires block.Length == 16 && i < 16 && j < 16 && l < 16 && i != l && 0 < n < 32
    modifies block
    ensures block[..] == LineOn(old(block[..]), i, j, l, n)
  {
    hide AddXorRotate;
    var (a, d) := AddXorRotate(block[i], block[j], block[l], n);
    block[i], block[l] := a, d;
  }

  lemma FourLines(s: seq<bv32>, i: nat, j: nat, k: nat, l: nat)
    requires |s| == 16 && i < 16 && j < 16 && k < 16 && l < 16
    requires i != j && i != k && i != l && j != k && j != l && k != l
    ensures LineOn(LineOn(LineOn(LineOn(s, i, j, l, 16), k, l, j, 12), i, j, l, 8), k, l, j, 7)
         == QuarterRoundOn(s, i, j, k, l)
  {
    hide AddXorRotate;
  }

  method QuarterRoundAt(block: array<bv32>, i: nat, j: nat, k: nat, l: nat)
    requires block.Length == 16 && i < 16 && j < 16 && k < 16 && l < 16
    requires i != j && i != k && i != l && j != k && j != l && k != l
    modifies block
    ensures block[..] == QuarterRoundOn(old(block[..]), i, j, k, l)
  {
    hide LineOn, QuarterRoundOn;
    FourLines(block[..], i, j, k, l);
    LineAt(block, i, j, l, 16);
    LineAt(block, k, l, j, 12);
    LineAt(block, i, j, l, 8);
    LineAt(block, k, l, j, 7);
  }

  /** INNER_BLOCK */
  method InnerBlockInPlace(block: array<bv32>)
    requires block.Length == 16
    modifies block
    ensures block[..] == InnerBlock(old(block[..]))
  {
    hide QuarterRoundOn;
    QuarterRoundAt(block, 0, 4, 8, 12);
    QuarterRoundAt(block, 1, 5, 9, 13);
    QuarterRoundAt(block, 2, 6, 10, 14);
    QuarterRoundAt(block, 3, 7, 11, 15);
    QuarterRoundAt(block, 0, 5, 10, 15);
    QuarterRoundAt(block, 1, 6, 11, 12);
    QuarterRoundAt(block, 2, 7, 8, 13);
    QuarterRoundAt(block, 3, 4, 9, 14);
  }

  /** TWENTY_ROUNDS */
  method TwentyRounds(block: array<bv32>)
    requires block.Length == 16
    modifies block
    ensures block[..] == Rounds(old(block[..]), 10)
  {
    hide InnerBlock;
    ghost var s := block[..];
    InnerBlockInPlace(block); assert block[..] == Rounds(s, 1) by { assert Rounds(s, 0) == s; }
    InnerBlockInPlace(block); assert block[..] == Rounds(s, 2);
    InnerBlockInPlace(block); assert block[..] == Rounds(s, 3);
    InnerBlockInPlace(block); assert block[..] == Rounds(s, 4);
    InnerBlockInPlace(block); assert block[..] == Rounds(s, 5);
    InnerBlockInPlace(block); assert block[..] == Rounds(s, 6);
    InnerBlockInPlace(block); assert block[..] == Rounds(s, 7);
    InnerBlockInPlace(block); assert block[..] == Rounds(s, 8);
    InnerBlockInPlace(block); assert block[..] == Rounds(s, 9);
    InnerBlockInPlace(block);
  }

  /** The constants, the eight key words and four more words. */
  function Setup(key: seq<byte>, w12: u32, w13: u32, w14: u32, w15: u32): (t: seq<u32>)
    requires |key| == 32
    ensures |t| == 16
  {
    [0x61707865, 0x3320646e, 0x79622d32, 0x6b206574,
     Load32(key, 0), Load32(key, 4), Load32(key, 8), Load32(key, 12),
     Load32(key, 16), Load32(key, 20), Load32(key, 24), Load32(key, 28),
     w12, w13, w14, w15]
  }

  /** The state for a key and WireGuard's 64-bit nonce, block counter zero. */
  function InitialState(key: seq<byte>, nonce: u64): (t: seq<u32>)
    requires |key| == 32
    ensures |t| == 16
  {
    Setup(key, 0, 0, nonce % TWO32, nonce / TWO32)
  }

  /** HChaCha20: the first and last four words of the permuted state. */
  function HChaCha(nonce: seq<byte>, key: seq<byte>): (t: seq<byte>)
    requires |nonce| >= 16 && |key| == 32
    ensures |t| == 32
  {
    var w := Rounds(ToWords(Setup(key, Load32(nonce, 0), Load32(nonce, 4), Load32(nonce, 8), Load32(nonce, 12))), 10);
    ToLE(4, Value(w[0])) + ToLE(4, Value(w[1])) + ToLE(4, Value(w[2])) + ToLE(4, Value(w[3]))
    + ToLE(4, Value(w[12])) + ToLE(4, Value(w[13])) + ToLE(4, Value(w[14])) + ToLE(4, Value(w[15]))
  }

  // The state as bytes

  /** "expand 32-byte k" */
  const CONSTANT: seq<byte> := [
    0x65, 0x78, 0x70, 0x61, 0x6e, 0x64, 0x20, 0x33, 0x32, 0x2d, 0x62, 0x79, 0x74, 0x65, 0x20, 0x6b]

  lemma LoadStored(s: seq<byte>, i: nat)
    requires i + 4 <= |s|
    ensures ToLE(4, Load32(s, i)) == s[i..i + 4]
  {
    Load32IsFromLE(s, i);
    EncodeDecode(s[i..i + 4]);
  }

  lemma SixteenBytes(s: seq<byte>, i: nat)
    requires i + 16 <= |s|
    ensures Serialise([Load32(s, i), Load32(s, i + 4), Load32(s, i + 8), Load32(s, i + 12)]) == s[i..i + 16]
  {
    hide ToLE, Load32, Serialise;
    LoadStored(s, i);
    LoadStored(s, i + 4);
    LoadStored(s, i + 8);
    LoadStored(s, i + 12);
    SerialiseFour(Load32(s, i), Load32(s, i + 4), Load32(s, i + 8), Load32(s, i + 12));
  }

  lemma ConstantBytes()
    ensures Serialise([0x61707865, 0x3320646e, 0x79622d32, 0x6b206574]) == CONSTANT
  {
    hide Serialise, ToLE;
    SerialiseFour(0x61707865, 0x3320646e, 0x79622d32, 0x6b206574);
    ConstantWords();
    MoreConstantWords();
  }

  lemma ConstantWords()
    ensures ToLE(4, 0x61707865) == [0x65, 0x78, 0x70, 0x61] && ToLE(4, 0x3320646e) == [0x6e, 0x64, 0x20, 0x33]
  {
  }

  lemma MoreConstantWords()
    ensures ToLE(4, 0x79622d32) == [0x32, 0x2d, 0x62, 0x79] && ToLE(4, 0x6b206574) == [0x74, 0x65, 0x20, 0x6b]
  {
  }

  /** The set-up state as the bytes that section 2.3 of RFC 7539 lays out. */
  lemma SetupBytes(key: seq<byte>, w12: u32, w13: u32, w14: u32, w15: u32)
    requires |key| == 32
    ensures Serialise(Setup(key, w12, w13, w14, w15))
         == CONSTANT + key + (ToLE(4, w12) + ToLE(4, w13) + ToLE(4, w14) + ToLE(4, w15))
  {
    hide Serialise, Load32, ToLE;
    var a, d := [0x61707865, 0x3320646e, 0x79622d32, 0x6b206574], [w12, w13, w14, w15];
    var b := [Load32(key, 0), Load32(key, 4), Load32(key, 8), Load32(key, 12)];
    var c := [Load32(key, 16), Load32(key, 20), Load32(key, 24), Load32(key, 28)];
    assert Setup(key, w12, w13, w14, w15) == a + (b + c) + d;
    KeyBytes(key);
    ConstantBytes();
    SerialiseFour(w12, w13, w14, w15);
    SerialiseAppend(a + (b + c), d);
    SerialiseAppend(a, b + c);
  }

  lemma KeyBytes(key: seq<byte>)
    requires |key| == 32
    ensures Serialise([Load32(key, 0), Load32(key, 4), Load32(key, 8), Load32(key, 12)]
                      + [Load32(key, 16), Load32(key, 20), Load32(key, 24), Load32(key, 28)]) == key
  {
    hide Serialise, Load32;
    SixteenBytes(key, 0);
    SixteenBytes(key, 16);
    SerialiseAppend([Load32(key, 0), Load32(key, 4), Load32(key, 8), Load32(key, 12)],
                    [Load32(key, 16), Load32(key, 20), Load32(key, 24), Load32(key, 28)]);
    assert key == key[..16] + key[16..32];
  }

  lemma NonceWords(nonce: u64)
    ensures ToLE(4, nonce % TWO32) + ToLE(4, nonce / TWO32) == ToLE(8, nonce)
  {
    assert Pow256(4) == TWO32;
    hide FromLE;
    var a, b := ToLE(4, nonce % TWO32), ToLE(4, nonce / TWO32);
    DecodeEncode(4, nonce % TWO32);
    DecodeEncode(4, nonce / TWO32);
    FromLEAppend(a, b);
    EncodeDecode(a + b);
  }

  lemma CounterBytes(counter: u32)
    ensures ToLE(4, 0) == Zeros(4) && ToLE(4, counter) + ToLE(4, 0) == ToLE(4, counter) + Zeros(4)
  {
  }

  /** For every key, block counter and nonce: the constant, the key, the counter, four zero bytes
      and the nonce, little-endian. */
  lemma StateBytes(key: seq<byte>, nonce: u64, k: u32)
    requires |key| == 32
    ensures Serialise(Counted(InitialState(key, nonce), k))
         == CONSTANT + key + ToLE(4, k) + Zeros(4) + ToLE(8, nonce)
  {
    hide Serialise, Load32, ToLE, Zeros;
    CounterBytes(k);
    assert Counted(InitialState(key, nonce), k) == Setup(key, k, 0, nonce % TWO32, nonce / TWO32);
    SetupBytes(key, k, 0, nonce % TWO32, nonce / TWO32);
    NonceWords(nonce);
  }

  /** The subkey derivation permutes the constant, the key and the first 16 bytes of the nonce. */
  lemma HChaChaBytes(nonce: seq<byte>, key: seq<byte>)
    requires |nonce| >= 16 && |key| == 32
    ensures Serialise(Setup(key, Load32(nonce, 0), Load32(nonce, 4), Load32(nonce, 8), Load32(nonce, 12)))
         == CONSTANT + key + nonce[..16]
  {
    hide Serialise, Load32, ToLE;
    SetupBytes(key, Load32(nonce, 0), Load32(nonce, 4), Load32(nonce, 8), Load32(nonce, 12));
    SixteenBytes(nonce, 0);
    SerialiseFour(Load32(nonce, 0), Load32(nonce, 4), Load32(nonce, 8), Load32(nonce, 12));
  }

  class ChaCha20Context {
    const state: array<u32>

    ghost predicate Valid()
      reads this
    {
      state.Length == 16
    }

    constructor ()
      ensures Valid() && fresh(state)
    {
      state := new u32[16];
    }

    /** chacha20_init */
    method Init(key: seq<byte>, nonce: u64)
      requires Valid() && |key| == 32
      modifies state
      ensures state[..] == InitialState(key, nonce)
    {
      hide Load32;
      state[0], state[1], state[2], state[3] := 0x61707865, 0x3320646e, 0x79622d32, 0x6b206574;
      state[4], state[5], state[6], state[7] := Load32(key, 0), Load32(key, 4), Load32(key, 8), Load32(key, 12);
      state[8], state[9], state[10], state[11] := Load32(key, 16), Load32(key, 20), Load32(key, 24), Load32(key, 28);
      state[12], state[13] := 0, 0;
      state[14], state[15] := nonce % TWO32, nonce / TWO32;
    }

    /** chacha20_block */
    method BlockInto(stream: array<byte>)
      requires Valid() && stream.Length == 64
      modifies stream
      ensures stream[..] == Block(state[..])
    {
      hide Rounds, ToLE, Value;
      var working := new bv32[16];
      CopyState(working);
      TwentyRounds(working);
      hide ToWords;
      StoreSums(stream, working, OutputWords(state[..]));
    }

    /** The loop that adds the initial state and stores the sums. */
    method StoreSums(stream: array<byte>, working: array<bv32>, ghost words: seq<u32>)
      requires Valid() && stream.Length == 64 && working.Length == |words| == 16
      requires forall i :: 0 <= i < 16 ==> words[i] == (Value(working[i]) + state[i]) % TWO32
      modifies stream
      ensures stream[..] == Serialise(words)
    {
      hide ToLE, Value;
      assert words[..0] == [];
      for i := 0 to 16
        invariant stream[..4 * i] == Serialise(words[..i])
      {
        ghost var before := stream[..];
        Store32(stream, 4 * i, (Value(working[i]) + state[i]) % TWO32);
        assert words[..i + 1][..i] == words[..i];
        assert stream[..4 * i + 4] == before[..4 * i] + ToLE(4, words[i]);
      }
      assert words[..16] == words && stream[..64] == stream[..];
    }

    /** The loop `working_state[i] = ctx->state[i]`. */
    method CopyState(working: array<bv32>)
      requires Valid() && working.Length == 16 && working as object != state
      modifies working
      ensures working[..] == ToWords(state[..])
    {
      hide Word;
      for i := 0 to 16
        invariant forall j :: 0 <= j < i ==> working[j] == Word(state[j])
      {
        working[i] := Word(state[i]);
      }
    }

    /** chacha20: out and inp are different buffers or the same bytes of one buffer. */
    method Crypt(out: array<byte>, o: nat, inp: array<byte>, p: nat, len: u32)
      requires Valid() && o + len <= out.Length && p + len <= inp.Length
      requires out != inp || o == p
      modifies state, out
      ensures out[..] == Splice(old(out[..]), o, Encrypt(old(state[..]), old(inp[p..p + len])))
      ensures state[..] == Counted(old(state[..]), (len + 63) / 64)
    {
      hide Block, XorByte, Counted, Encrypt, Splice;
      ghost var s0, text, before := state[..], inp[p..p + len], out[..];
      CountedZero(s0);
      EncryptNothing(before, o, s0, text);
      if len == 0 {
        assert text == text[..0];
        return;
      }
      var done := 0;
      while len - done > 64
        invariant done % 64 == 0 && done < len
        invariant state[..] == Counted(s0, done / 64)
        invariant out[..] == Splice(before, o, Encrypt(s0, text[..done]))
        invariant inp[p + done..p + len] == text[done..]
      {
        CryptBlock(out, o, inp, p, done, 64, s0, text, before);
        done := done + 64;
      }
      CryptBlock(out, o, inp, p, done, len - done, s0, text, before);
      assert text[..len] == text;
      assert done / 64 + 1 == (len + 63) / 64;
    }

    /** One turn of the loop: a key stream block, the counter, n bytes of output. */
    method CryptBlock(out: array<byte>, o: nat, inp: array<byte>, p: nat, done: nat, n: nat,
                      ghost s0: seq<u32>, ghost text: seq<byte>, ghost before: seq<byte>)
      requires Valid() && o + done + n <= out.Length && p + |text| <= inp.Length && (out != inp || o == p)
      requires |s0| == 16 && done % 64 == 0 && n <= 64 && done + n <= |text|
      requires o + |text| <= |before| == out.Length
      requires state[..] == Counted(s0, done / 64)
      requires out[..] == Splice(before, o, Encrypt(s0, text[..done]))
      requires inp[p + done..p + |text|] == text[done..]
      modifies state, out
      ensures state[..] == Counted(s0, done / 64 + 1)
      ensures out[..] == Splice(before, o, Encrypt(s0, text[..done + n]))
      ensures inp[p + done + n..p + |text|] == text[done + n..]
    {
      hide Block, XorByte, Counted, Encrypt, XorBytes, Splice;
      SliceShift(inp[..], p, text, done, n);
      var output := new byte[64];
      BlockInto(output);
      Increment();
      CountedTwice(s0, done / 64, 1);
      XorInto(out, o + done, inp, p + done, output[..], n);
      Extend(before, o, s0, text, done, n);
      SpliceTail(old(out[..]), o + done, XorBytes(text[done..done + n], Block(Counted(s0, done / 64))[..n]),
                 p + |text|);
    }

    /** `ctx->state[12] = PLUSONE(ctx->state[12])` */
    method Increment()
      requires Valid()
      modifies state
      ensures state[..] == Counted(old(state[..]), 1)
    {
      state[12] := (state[12] + 1) % TWO32;
    }
  }

  lemma SliceShift(buffer: seq<byte>, p: nat, text: seq<byte>, done: nat, n: nat)
    requires p + |text| <= |buffer| && done + n <= |text|
    requires buffer[p + done..p + |text|] == text[done..]
    ensures buffer[p + done..p + done + n] == text[done..done + n]
    ensures buffer[p + done + n..p + |text|] == text[done + n..]
  {
    var tail := buffer[p + done..p + |text|];
    assert tail[..n] == buffer[p + done..p + done + n] && text[done..][..n] == text[done..done + n];
    assert tail[n..] == buffer[p + done + n..p + |text|] && text[done..][n..] == text[done + n..];
  }

  lemma EncryptNothing(before: seq<byte>, o: nat, s: seq<u32>, text: seq<byte>)
    requires |s| == 16 && o <= |before|
    ensures Splice(before, o, Encrypt(s, text[..0])) == before
  {
  }

  lemma CountedZero(s: seq<u32>)
    requires |s| == 16
    ensures Counted(s, 0) == s
  {
    assert s[12] % TWO32 == s[12];
  }

  /** The byte loop `out[i] = in[i] ^ output[i]`. */
  method XorInto(out: array<byte>, o: nat, inp: array<byte>, p: nat, mask: seq<byte>, n: nat)
    requires o + n <= out.Length && p + n <= inp.Length && n <= |mask|
    requires out != inp || o == p
    modifies out
    ensures out[..] == Splice(old(out[..]), o, XorBytes(old(inp[p..p + n]), mask[..n]))
  {
    hide XorByte;
    ghost var text := inp[p..p + n];
    for i := 0 to n
      invariant forall j :: 0 <= j < i ==> out[o + j] == XorByte(text[j], mask[j])
      invariant forall j :: 0 <= j < o || o + i <= j < out.Length ==> out[j] == old(out[j])
      invariant inp[p + i..p + n] == text[i..]
    {
      assert inp[p + i] == text[i];
      out[o + i] := XorByte(inp[p + i], mask[i]);
    }
  }

  /** One more block of output. */
  lemma Extend(before: seq<byte>, o: nat, s: seq<u32>, text: seq<byte>, done: nat, n: nat)
    requires |s| == 16 && done % 64 == 0 && n <= 64 && done + n <= |text| && o + |text| <= |before|
    ensures Splice(Splice(before, o, Encrypt(s, text[..done])), o + done,
                   XorBytes(text[done..done + n], Block(Counted(s, done / 64))[..n]))
         == Splice(before, o, Encrypt(s, text[..done + n]))
  {
    hide Block, XorByte, Counted;
    var a, b := Encrypt(s, text[..done]), XorBytes(text[done..done + n], Block(Counted(s, done / 64))[..n]);
    var c := Encrypt(s, text[..done + n]);
    assert c == a + b by {
      forall i | 0 <= i < n ensures c[done + i] == b[i] {
        assert (done + i) / 64 == done / 64 && (done + i) % 64 == i;
      }
    }
    SpliceAdjacent(before, o, a, b);
  }

  /** hchacha20 */
  method HChaCha20(nonce: seq<byte>, key: seq<byte>) returns (out: seq<byte>)
    requires |nonce| >= 16 && |key| == 32
    ensures out == HChaCha(nonce, key)
  {
    hide Rounds, ToLE, Value, Word, Load32;
    var setup := Setup(key, Load32(nonce, 0), Load32(nonce, 4), Load32(nonce, 8), Load32(nonce, 12));
    var state := new bv32[16](i requires 0 <= i < 16 => Word(setup[i]));
    assert state[..] == ToWords(setup);
    TwentyRounds(state);
    out := ToLE(4, Value(state[0])) + ToLE(4, Value(state[1])) + ToLE(4, Value(state[2])) + ToLE(4, Value(state[3]))
           + ToLE(4, Value(state[12])) + ToLE(4, Value(state[13])) + ToLE(4, Value(state[14]))
           + ToLE(4, Value(state[15]));
  }
}
