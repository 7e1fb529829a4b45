/** A known answer of HChaCha20 with a key and a nonce whose words differ: the example of
    section 2.2.1 of the XChaCha draft (draft-irtf-cfrg-xchacha). */
module HChaChaVector {
  import opened Bytes
  import opened ChaCha20

  const NONCE: seq<byte> := [
    0x00, 0x00, 0x00, 0x09, 0x00, 0x00, 0x00, 0x4a, 0x00, 0x00, 0x00, 0x00, 0x31, 0x41, 0x59, 0x27]

  const SUBKEY: seq<byte> := [
    0x82, 0x41, 0x3b, 0x42, 0x27, 0xb2, 0x7b, 0xfe, 0xd3, 0x0e, 0x42, 0x50, 0x8a, 0x87, 0x7d, 0x73,
    0xa0, 0xf9, 0xe4, 0xd5, 0x8a, 0x74, 0xa8, 0x53, 0xc1, 0x2e, 0xc4, 0x13, 0x26, 0xd3, 0xec, 0xdc]

  // The state after every double round

  const S0: seq<bv32> := [
    0x6170_7865, 0x3320_646e, 0x7962_2d32, 0x6b20_6574,
    0x0302_0100, 0x0706_0504, 0x0b0a_0908, 0x0f0e_0d0c,
    0x1312_1110, 0x1716_1514, 0x1b1a_1918, 0x1f1e_1d1c,
    0x0900_0000, 0x4a00_0000, 0x0000_0000, 0x2759_4131]
  const S1: seq<bv32> := [
    0x7bc4_34f3, 0x6a04_5b3d, 0xa9b6_a717, 0xe973_01f1,
    0x61ba_01e7, 0x8d24_5f4b, 0x3370_8154, 0xd31e_1023,
    0x3af1_8a5b, 0xb644_b533, 0xfd66_db41, 0x51e9_ad3a,
    0xc424_874b, 0x61d3_6895, 0xe9ff_651a, 0x923c_81f0]
  const S2: seq<bv32> := [
    0x8e19_d568, 0x4f94_b2fa, 0xe2e6_b081, 0xe347_1ee3,
    0x5d8d_c91e, 0xe484_3060, 0x7c53_2d54, 0x9ad4_2044,
    0x0b30_ba63, 0x4f1b_068a, 0x83ad_7706, 0xc3e0_9f4c,
    0xa664_c0c1, 0x3292_fc5b, 0xa73c_703f, 0x7137_a6f4]
  const S3: seq<bv32> := [
    0x9f53_c98b, 0x8737_2c3c, 0x8995_494b, 0x2939_b691,
    0xaa53_ec91, 0xa64c_d8c6, 0x591b_eafb, 0x1a9d_bfe2,
    0x0c5e_96dd, 0x153f_5501, 0x83e5_0579, 0xad69_4245,
    0x82fb_0b27, 0x9479_489b, 0x3ef1_765e, 0xff75_2502]
  const S4: seq<bv32> := [
    0x7b89_3f75, 0xfcb3_9b21, 0x0797_b1bf, 0x5f9e_c3b3,
    0x4e0f_0bd5, 0xafa7_7b58, 0xea55_62e0, 0xd7ac_0abe,
    0x6990_c3af, 0x435a_b730, 0xd68d_7249, 0x1669_6500,
    0xb016_2333, 0x553c_cfa7, 0x13cb_e911, 0xdbba_b6cc]
  const S5: seq<bv32> := [
    0xd1de_186c, 0xb0c7_b93c, 0xd078_df04, 0x660e_0112,
    0x67e3_6bdb, 0xac30_ed15, 0xbd9e_d3dd, 0x7851_b2cd,
    0xab33_732a, 0xba25_d2cf, 0x4ed7_a584, 0x5bd1_985c,
    0xf316_8d27, 0x8d87_591b, 0x8c80_db2f, 0x4436_7d8c]
  const S6: seq<bv32> := [
    0x44ac_8600, 0xe23f_5411, 0x5ae8_0570, 0x5d4f_85b8,
    0x2de2_36d4, 0xfddd_6beb, 0x0e3b_8a87, 0x8c65_a958,
    0x8018_e660, 0xe591_c0ff, 0x33de_c291, 0xf507_052f,
    0x4ecc_c9aa, 0x48e8_1158, 0x4590_2c7f, 0xfed5_2426]
  const S7: seq<bv32> := [
    0x82f3_2a6d, 0x8e36_7c9d, 0x12b1_7440, 0x1bda_71e1,
    0x9375_cc72, 0xc4a0_c4c8, 0xd199_bb4b, 0x2c03_5ec8,
    0x6a84_44e0, 0xd4b8_31be, 0xade4_e9ca, 0xe44d_4801,
    0xa6ce_c396, 0x6cf9_7b4d, 0xfd6c_3bb3, 0xa748_58b5]
  const S8: seq<bv32> := [
    0x4d7f_6f44, 0xe8db_7660, 0x2268_596b, 0x1952_22b4,
    0x6452_0ce3, 0x2d3d_17fc, 0x0aa8_fb53, 0x375e_b422,
    0xc0d0_af92, 0x1224_4acd, 0x5a53_4192, 0x6abb_8c14,
    0x0a2b_cb7c, 0x7e65_7143, 0x89b8_18ce, 0xaf9b_6644]
  const S9: seq<bv32> := [
    0x2d02_a54c, 0x6fdd_5da4, 0x517a_3ba9, 0x4048_cdf3,
    0x2735_a16f, 0xfdf9_71a2, 0x454a_57d9, 0xf188_6447,
    0xc7a7_fbc9, 0x6f10_8d65, 0x8ffa_82c8, 0xc826_7115,
    0x18bb_420c, 0x2d4e_065f, 0x16d4_618a, 0xc7f6_1ba4]
  const S10: seq<bv32> := [
    0x423b_4182, 0xfe7b_b227, 0x5042_0ed3, 0x737d_878a,
    0x0aa7_6448, 0x7954_cdf3, 0x846a_cd37, 0x7b3c_58ad,
    0x77e3_5583, 0x83e7_7c12, 0xe007_6a2d, 0xbc6c_d0e5,
    0xd5e4_f9a0, 0x53a8_748a, 0x13c4_2ec1, 0xdcec_d326]

  lemma Double1()
    ensures InnerBlock(S0) == S1
  {
    hide InnerBlock;
    InnerBlockIs(S0);
  }

  lemma Double2()
    ensures InnerBlock(S1) == S2
  {
    hide InnerBlock;
    InnerBlockIs(S1);
  }

  lemma Double3()
    ensures InnerBlock(S2) == S3
  {
    hide InnerBlock;
    InnerBlockIs(S2);
  }

  lemma Double4()
    ensures InnerBlock(S3) == S4
  {
    hide InnerBlock;
    InnerBlockIs(S3);
  }

  lemma Double5()
    ensures InnerBlock(S4) == S5
  {
    hide InnerBlock;
    InnerBlockIs(S4);
  }

  lemma Double6()
    ensures InnerBlock(S5) == S6
  {
    hide InnerBlock;
    InnerBlockIs(S5);
  }

  lemma Double7()
    ensures InnerBlock(S6) == S7
  {
    hide InnerBlock;
    InnerBlockIs(S6);
  }

  lemma Double8()
    ensures InnerBlock(S7) == S8
  {
    hide InnerBlock;
    InnerBlockIs(S7);
  }

  lemma Double9()
    ensures InnerBlock(S8) == S9
  {
    hide InnerBlock;
    InnerBlockIs(S8);
  }

  lemma Double10()
    ensures InnerBlock(S9) == S10
  {
    hide InnerBlock;
    InnerBlockIs(S9);
  }

  lemma AllRounds()
    ensures Rounds(S0, 10) == S10
  {
    hide InnerBlock;
    Double1();
    Double2();
    Double3();
    Double4();
    Double5();
    Double6();
    Double7();
    Double8();
    Double9();
    Double10();
    assert Rounds(S0, 0) == S0;
    assert Rounds(S0, 1) == S1;
    assert Rounds(S0, 2) == S2;
    assert Rounds(S0, 3) == S3;
    assert Rounds(S0, 4) == S4;
    assert Rounds(S0, 5) == S5;
    assert Rounds(S0, 6) == S6;
    assert Rounds(S0, 7) == S7;
    assert Rounds(S0, 8) == S8;
    assert Rounds(S0, 9) == S9;
    assert Rounds(S0, 10) == S10;
  }

  // The initial state

  const INITIAL: seq<u32> := [
    0x6170_7865, 0x3320_646e, 0x7962_2d32, 0x6b20_6574,
    0x0302_0100, 0x0706_0504, 0x0b0a_0908, 0x0f0e_0d0c,
    0x1312_1110, 0x1716_1514, 0x1b1a_1918, 0x1f1e_1d1c,
    0x0900_0000, 0x4a00_0000, 0x0000_0000, 0x2759_4131]

  lemma NonceLoads()
    ensures Load32(NONCE, 0) == 0x0900_0000 && Load32(NONCE, 4) == 0x4a00_0000
    ensures Load32(NONCE, 8) == 0x0000_0000 && Load32(NONCE, 12) == 0x2759_4131
  {
  }

  lemma StartState()
    ensures Setup(Counting(32), Load32(NONCE, 0), Load32(NONCE, 4), Load32(NONCE, 8), Load32(NONCE, 12)) == INITIAL
  {
    hide Load32;
    NonceLoads();
    CountingLoads(Counting(32), 0);
    CountingLoads(Counting(32), 1);
    CountingLoads(Counting(32), 2);
    CountingLoads(Counting(32), 3);
    CountingLoads(Counting(32), 4);
    CountingLoads(Counting(32), 5);
    CountingLoads(Counting(32), 6);
    CountingLoads(Counting(32), 7);
  }

  lemma LowWords()
    ensures Word(0x6170_7865) == 0x6170_7865 && Word(0x3320_646e) == 0x3320_646e
    ensures Word(0x7962_2d32) == 0x7962_2d32 && Word(0x6b20_6574) == 0x6b20_6574
    ensures Word(0x0302_0100) == 0x0302_0100 && Word(0x0706_0504) == 0x0706_0504
    ensures Word(0x0b0a_0908) == 0x0b0a_0908 && Word(0x0f0e_0d0c) == 0x0f0e_0d0c
  {
  }

  lemma HighWords()
    ensures Word(0x1312_1110) == 0x1312_1110 && Word(0x1716_1514) == 0x1716_1514
    ensures Word(0x1b1a_1918) == 0x1b1a_1918 && Word(0x1f1e_1d1c) == 0x1f1e_1d1c
    ensures Word(0x0900_0000) == 0x0900_0000 && Word(0x4a00_0000) == 0x4a00_0000
    ensures Word(0x0000_0000) == 0x0000_0000 && Word(0x2759_4131) == 0x2759_4131
  {
  }

  lemma StartWords()
    ensures ToWords(INITIAL) == S0
  {
    hide Word;
    LowWords();
    HighWords();
  }

  // The subkey

  lemma LowValues()
    ensures Value(0x423b_4182) == 0x423b_4182 && Value(0xfe7b_b227) == 0xfe7b_b227
    ensures Value(0x5042_0ed3) == 0x5042_0ed3 && Value(0x737d_878a) == 0x737d_878a
  {
  }

  lemma LowBytes()
    ensures ToLE(4, Value(0x423b_4182)) == [0x82, 0x41, 0x3b, 0x42]
    ensures ToLE(4, Value(0xfe7b_b227)) == [0x27, 0xb2, 0x7b, 0xfe]
    ensures ToLE(4, Value(0x5042_0ed3)) == [0xd3, 0x0e, 0x42, 0x50]
    ensures ToLE(4, Value(0x737d_878a)) == [0x8a, 0x87, 0x7d, 0x73]
  {
    hide ToLE, Value;
    LowValues();
    StoreBytes(0x423b_4182);
    StoreBytes(0xfe7b_b227);
    StoreBytes(0x5042_0ed3);
    StoreBytes(0x737d_878a);
  }

  lemma HighValues()
    ensures Value(0xd5e4_f9a0) == 0xd5e4_f9a0 && Value(0x53a8_748a) == 0x53a8_748a
    ensures Value(0x13c4_2ec1) == 0x13c4_2ec1 && Value(0xdcec_d326) == 0xdcec_d326
  {
  }

  lemma HighBytes()
    ensures ToLE(4, Value(0xd5e4_f9a0)) == [0xa0, 0xf9, 0xe4, 0xd5]
    ensures ToLE(4, Value(0x53a8_748a)) == [0x8a, 0x74, 0xa8, 0x53]
    ensures ToLE(4, Value(0x13c4_2ec1)) == [0xc1, 0x2e, 0xc4, 0x13]
    ensures ToLE(4, Value(0xdcec_d326)) == [0x26, 0xd3, 0xec, 0xdc]
  {
    hide ToLE, Value;
    HighValues();
    StoreBytes(0xd5e4_f9a0);
    StoreBytes(0x53a8_748a);
    StoreBytes(0x13c4_2ec1);
    StoreBytes(0xdcec_d326);
  }

  lemma SubkeyBytes(w: seq<bv32>)
    requires w == S10
    ensures ToLE(4, Value(w[0])) + ToLE(4, Value(w[1])) + ToLE(4, Value(w[2])) + ToLE(4, Value(w[3]))
            + ToLE(4, Value(w[12])) + ToLE(4, Value(w[13])) + ToLE(4, Value(w[14])) + ToLE(4, Value(w[15])) == SUBKEY
  {
    hide ToLE, Value;
    LowBytes();
    HighBytes();
  }

  /** The subkey of the key 00 01 .. 1f and that nonce. */
  lemma SubkeyVector()
    ensures HChaCha(NONCE, Counting(32)) == SUBKEY
  {
    hide Rounds, ToWords, Setup, ToLE, Value, Load32;
    StartState();
    StartWords();
    AllRounds();
    SubkeyBytes(Rounds(ToWords(INITIAL), 10));
  }
}
