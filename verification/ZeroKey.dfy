/** A real key: the first key stream block under the all-zero key and nonce (test vector 1 of
    appendix A.1 of RFC 7539), and what decryption makes of long texts under it. */
module ZeroKey {
  import opened Bits
  import opened Bytes
  import opened Wrappers
  import opened Limbs26
  import opened ChaCha20
  import Poly1305
  import Poly1305Donna
  import Aead

  // The state after every double round

  const S0: seq<bv32> := [
    0x6170_7865, 0x3320_646e, 0x7962_2d32, 0x6b20_6574,
    0x0000_0000, 0x0000_0000, 0x0000_0000, 0x0000_0000,
    0x0000_0000, 0x0000_0000, 0x0000_0000, 0x0000_0000,
    0x0000_0000, 0x0000_0000, 0x0000_0000, 0x0000_0000]
  const S1: seq<bv32> := [
    0xe45f_d249, 0x1bb8_20a6, 0xe31a_88ea, 0xe667_a9fe,
    0x2a3b_f673, 0x86bf_4098, 0x460b_500a, 0xfa16_9886,
    0x538d_ca0e, 0x0c43_9641, 0x00fa_16bc, 0x8a08_812a,
    0x6bbf_8b09, 0xc330_13d6, 0xbb9f_9849, 0x87c6_2165]
  const S2: seq<bv32> := [
    0xb20e_0da6, 0x2121_9e43, 0x79c6_9196, 0x8eb9_d107,
    0x28bf_a54e, 0x0e8a_389f, 0x7919_a4b4, 0x323f_2639,
    0x6972_7d19, 0x12e7_96ec, 0xd187_5d88, 0x602b_b1ec,
    0x601c_8a8d, 0x18cf_3767, 0x60d1_0ebc, 0x17aa_36ca]
  const S3: seq<bv32> := [
    0x0287_a2a1, 0xd2dc_39ef, 0xf2ec_f51e, 0xc387_6afe,
    0x9276_b821, 0x37cc_b7a7, 0x1fe6_c459, 0xe5f9_5617,
    0xd7b1_8523, 0xa095_2ff2, 0x131f_6ff5, 0x6f38_a9cc,
    0x5c42_7a5f, 0x1d92_8d7b, 0xf4d2_b4da, 0x1a64_0884]
  const S4: seq<bv32> := [
    0xce7e_87d9, 0xa31f_fb1b, 0x6f56_2e4d, 0x3684_a3ab,
    0xc30e_842c, 0x3b7f_9ace, 0x88e1_1b18, 0x1e1a_71ef,
    0x72e1_4c98, 0x416f_21b9, 0x6753_449f, 0x1956_6d45,
    0xa342_4a31, 0x01b0_86da, 0xb8fd_7b38, 0x42fe_0c0e]
  const S5: seq<bv32> := [
    0x4e03_490c, 0x97ee_bef9, 0xf682_bb04, 0x2f47_e3b0,
    0x50b4_761b, 0xea7c_9cf0, 0xb3a3_e583, 0xe5ba_d8a8,
    0x4f9f_9d79, 0x44f5_2393, 0xabbf_af66, 0x5efd_347a,
    0xb1f5_5cb5, 0x0511_0aed, 0x561c_5907, 0xd41d_25b4]
  const S6: seq<bv32> := [
    0x092a_7c36, 0x20d8_f099, 0x996b_f24f, 0x6a62_c0eb,
    0xbbc3_2904, 0x1474_e049, 0xa589_007e, 0x5f15_ae2e,
    0x79f8_6405, 0xc0e3_7ad2, 0x3428_e82c, 0x798c_faac,
    0x2c9f_623a, 0x1969_dea0, 0x2fe8_0b61, 0xbe26_1341]
  const S7: seq<bv32> := [
    0x6ddf_4b98, 0x5fde_0110, 0xd9dd_b632, 0x7418_250b,
    0xdda3_ea19, 0x46da_35f5, 0x31fb_36ca, 0x70e5_6323,
    0x46d5_8770, 0xc0c8_e4e6, 0xba4b_1657, 0xc470_2b5e,
    0xaf4a_d6e3, 0xe694_7902, 0x2681_e5bb, 0x2834_4e52]
  const S8: seq<bv32> := [
    0xf6eb_4385, 0x0f50_70cf, 0x824a_c4d4, 0xff02_6184,
    0x71db_97dd, 0x60cd_994d, 0xad80_5036, 0x89d5_91ce,
    0x9e52_43f3, 0x16d0_ee25, 0x82e9_2b96, 0xd0da_8654,
    0x6b96_a006, 0x477a_37f7, 0xd244_fa8c, 0xb24c_5c63]
  const S9: seq<bv32> := [
    0x0a49_d0bb, 0xfd73_bfeb, 0xc243_92d4, 0xe110_766d,
    0x7c18_8159, 0x390f_8b4d, 0x0a23_271f, 0x0e05_1682,
    0x5b48_a341, 0x0861_dff7, 0x5d33_cdbb, 0x17d4_372d,
    0xc5d8_9a0b, 0x9df1_402c, 0xb08a_b5e0, 0x8548_8580]
  const S10: seq<bv32> := [
    0x4c70_4011, 0x5d1d_8d32, 0x6c08_300e, 0xbd9d_20df,
    0xb819_d2bd, 0x1aed_8da0, 0xccef_36a8, 0xc70d_778b,
    0x7c59_41da, 0x8d48_5751, 0x3fe0_2477, 0x374a_d8b8,
    0xf4b8_436a, 0x1ca1_1815, 0x69b6_87c3, 0x8665_eeb2]

  lemma Double1()
    ensures InnerBlock(S0) == S1
  {
    hide InnerBlock;
    InnerBlockIs(S0);
  }

  lemma Double2()
    ensures InnerBlock(S1) == S2
  {
    hide InnerBlock;
    InnerBlockIs(S1);
  }

  lemma Double3()
    ensures InnerBlock(S2) == S3
  {
    hide InnerBlock;
    InnerBlockIs(S2);
  }

  lemma Double4()
    ensures InnerBlock(S3) == S4
  {
    hide InnerBlock;
    InnerBlockIs(S3);
  }

  lemma Double5()
    ensures InnerBlock(S4) == S5
  {
    hide InnerBlock;
    InnerBlockIs(S4);
  }

  lemma Double6()
    ensures InnerBlock(S5) == S6
  {
    hide InnerBlock;
    InnerBlockIs(S5);
  }

  lemma Double7()
    ensures InnerBlock(S6) == S7
  {
    hide InnerBlock;
    InnerBlockIs(S6);
  }

  lemma Double8()
    ensures InnerBlock(S7) == S8
  {
    hide InnerBlock;
    InnerBlockIs(S7);
  }

  lemma Double9()
    ensures InnerBlock(S8) == S9
  {
    hide InnerBlock;
    InnerBlockIs(S8);
  }

  lemma Double10()
    ensures InnerBlock(S9) == S10
  {
    hide InnerBlock;
    InnerBlockIs(S9);
  }

  // The block

  /** The twenty rounds. */
  lemma AllRounds()
    ensures Rounds(S0, 10) == S10
  {
    hide InnerBlock;
    Double1();
    Double2();
    Double3();
    Double4();
    Double5();
    Double6();
    Double7();
    Double8();
    Double9();
    Double10();
    assert Rounds(S0, 0) == S0;
    assert Rounds(S0, 1) == S1;
    assert Rounds(S0, 2) == S2;
    assert Rounds(S0, 3) == S3;
    assert Rounds(S0, 4) == S4;
    assert Rounds(S0, 5) == S5;
    assert Rounds(S0, 6) == S6;
    assert Rounds(S0, 7) == S7;
    assert Rounds(S0, 8) == S8;
    assert Rounds(S0, 9) == S9;
    assert Rounds(S0, 10) == S10;
  }

  const INITIAL: seq<u32> := [
    0x6170_7865, 0x3320_646e, 0x7962_2d32, 0x6b20_6574,
    0x0000_0000, 0x0000_0000, 0x0000_0000, 0x0000_0000,
    0x0000_0000, 0x0000_0000, 0x0000_0000, 0x0000_0000,
    0x0000_0000, 0x0000_0000, 0x0000_0000, 0x0000_0000]

  lemma LoadZero(i: nat)
    requires i + 4 <= 32
    ensures Load32(Zeros(32), i) == 0
  {
  }

  lemma StartState()
    ensures InitialState(Zeros(32), 0) == INITIAL
  {
    forall i: nat | i + 4 <= 32 ensures Load32(Zeros(32), i) == 0 {
      LoadZero(i);
    }
    hide Load32;
  }

  lemma WordsMeanThemselves()
    ensures Word(0x6170_7865) == 0x6170_7865 && Word(0x3320_646e) == 0x3320_646e && Word(0x7962_2d32) == 0x7962_2d32
    ensures Word(0x6b20_6574) == 0x6b20_6574 && Word(0) == 0
  {
  }

  lemma StartWords()
    ensures ToWords(INITIAL) == S0
  {
    WordsMeanThemselves();
    hide Word;
  }

  const WORDS: seq<u32> := [
    0xade0_b876, 0x903d_f1a0, 0xe56a_5d40, 0x28bd_8653,
    0xb819_d2bd, 0x1aed_8da0, 0xccef_36a8, 0xc70d_778b,
    0x7c59_41da, 0x8d48_5751, 0x3fe0_2477, 0x374a_d8b8,
    0xf4b8_436a, 0x1ca1_1815, 0x69b6_87c3, 0x8665_eeb2]

  lemma LowValues()
    ensures Value(0x4c70_4011) == 0x4c70_4011 && Value(0x5d1d_8d32) == 0x5d1d_8d32
    ensures Value(0x6c08_300e) == 0x6c08_300e && Value(0xbd9d_20df) == 0xbd9d_20df
    ensures Value(0xb819_d2bd) == 0xb819_d2bd && Value(0x1aed_8da0) == 0x1aed_8da0
    ensures Value(0xccef_36a8) == 0xccef_36a8 && Value(0xc70d_778b) == 0xc70d_778b
  {
  }

  lemma HighValues()
    ensures Value(0x7c59_41da) == 0x7c59_41da && Value(0x8d48_5751) == 0x8d48_5751
    ensures Value(0x3fe0_2477) == 0x3fe0_2477 && Value(0x374a_d8b8) == 0x374a_d8b8
    ensures Value(0xf4b8_436a) == 0xf4b8_436a && Value(0x1ca1_1815) == 0x1ca1_1815
    ensures Value(0x69b6_87c3) == 0x69b6_87c3 && Value(0x8665_eeb2) == 0x8665_eeb2
  {
  }

  /** The words of the block, as the standard lists them. */
  lemma BlockWords()
    ensures OutputWords(InitialState(Zeros(32), 0)) == WORDS
  {
    AllRounds();
    StartState();
    StartWords();
    LowValues();
    HighValues();
    hide Rounds, ToWords, InitialState, Value;
  }

  // The one-time key

  const FIRST: seq<byte> := [
    0x76, 0xb8, 0xe0, 0xad, 0xa0, 0xf1, 0x3d, 0x90, 0x40, 0x5d, 0x6a, 0xe5, 0x53, 0x86, 0xbd, 0x28]

  lemma WordBytes()
    ensures ToLE(4, 0xade0_b876) == [0x76, 0xb8, 0xe0, 0xad] && ToLE(4, 0x903d_f1a0) == [0xa0, 0xf1, 0x3d, 0x90]
  {
  }

  lemma MoreWordBytes()
    ensures ToLE(4, 0xe56a_5d40) == [0x40, 0x5d, 0x6a, 0xe5] && ToLE(4, 0x28bd_8653) == [0x53, 0x86, 0xbd, 0x28]
  {
  }

  lemma {:induction false} WordAt(s: seq<u32>, k: nat)
    requires k < |s|
    ensures Serialise(s)[4 * k..4 * k + 4] == ToLE(4, s[k])
    decreases |s|
  {
    hide ToLE;
    var n := |s| - 1;
    var a := Serialise(s[..n]);
    if k == n {
      assert (a + ToLE(4, s[n]))[4 * n..4 * n + 4] == ToLE(4, s[n]);
    } else {
      WordAt(s[..n], k);
      assert (a + ToLE(4, s[n]))[4 * k..4 * k + 4] == a[4 * k..4 * k + 4];
    }
  }

  lemma FirstBytes(s: seq<u32>)
    requires |s| == 16 && s[..4] == WORDS[..4]
    ensures |Serialise(s)| == 64 && Serialise(s)[..16] == FIRST
  {
    WordBytes();
    MoreWordBytes();
    hide ToLE;
    assert s[0] == WORDS[..4][0] && s[1] == WORDS[..4][1] && s[2] == WORDS[..4][2] && s[3] == WORDS[..4][3];
    var t := Serialise(s);
    WordAt(s, 0);
    WordAt(s, 1);
    WordAt(s, 2);
    WordAt(s, 3);
    hide Serialise;
    assert t[..16] == t[0..4] + t[4..8] + t[8..12] + t[12..16];
  }

  /** The first half of the one-time key. */
  lemma OneTimeBytes()
    ensures Aead.OneTimeKey(Zeros(32), 0)[..16] == FIRST
  {
    BlockWords();
    hide OutputWords;
    FirstBytes(OutputWords(InitialState(Zeros(32), 0)));
    hide Serialise;
  }

  /** Its clamped multiplier. */
  lemma Multiplier(oneTimeKey: seq<byte>)
    requires |oneTimeKey| == 32 && oneTimeKey[..16] == FIRST
    ensures Poly1305.ClampedR(oneTimeKey) == 0x8bd8650056a5d40003df1a00de0b876
  {
    var c := Poly1305.ClampedKey(oneTimeKey);
    forall i | 0 <= i < 16 ensures c[i] == Poly1305.ClampByte(i, FIRST[i]) {
      assert oneTimeKey[i] == oneTimeKey[..16][i];
    }
    assert Load32(c, 0) == 0x0de0_b876 && Load32(c, 4) == 0x003d_f1a0;
    assert Load32(c, 8) == 0x056a_5d40 && Load32(c, 12) == 0x08bd_8650;
    Poly1305Donna.FromLEOf16(c);
  }

  lemma GapOf(r: nat)
    requires r == 0x8bd8650056a5d40003df1a00de0b876
    ensures r * Aead.LENGTH_GAP % P == 0x1fd0c2f6dfbd80cabf9887978110b7889
  {
  }

  /** The gap shows in the one-time key of the all-zero key and nonce. */
  lemma GapShowsHere()
    ensures Aead.GapShows(Aead.OneTimeKey(Zeros(32), 0))
  {
    hide Aead.OneTimeKey, Poly1305.ClampedR;
    OneTimeBytes();
    var k := Aead.OneTimeKey(Zeros(32), 0);
    Multiplier(k);
    GapOf(Poly1305.ClampedR(k));
  }

  /** Under the all-zero key and nonce no text of 2^31 bytes or more comes back, whatever the
      text and the associated data. */
  lemma LongTextsLost(ad: seq<byte>, text: seq<byte>)
    requires 0x8000_0000 <= |text| < TWO32 - 16
    ensures Aead.Open(Zeros(32), 0, ad, Aead.Seal(Zeros(32), 0, ad, text)) == None
  {
    hide Aead.GapShows, Aead.Open, Aead.Seal, Aead.OneTimeKey;
    GapShowsHere();
    Aead.LongTextsRejected(Zeros(32), 0, ad, text);
  }
}
