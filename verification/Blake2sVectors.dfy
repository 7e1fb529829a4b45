/** Known answers of BLAKE2s: a full block in which all sixteen message words differ, and a keyed
    message, with the key block before it and a last block that is not full. */
module Blake2sVectors {
  import opened Bytes
  import opened Blake2s

  // One round, entry by entry

  /** The mixing function on four words by themselves. */
  function Quarter(a: bv32, b: bv32, c: bv32, d: bv32, x: bv32, y: bv32): (bv32, bv32, bv32, bv32) {
    var g := HalfMix(a, b, c, d, x, 16, 12);
    HalfMix(g.0, g.1, g.2, g.3, y, 8, 7)
  }

  lemma Columns(v: seq<bv32>, x: seq<bv32>)
    requires |v| == 16 && |x| == 16
    ensures var c0, c1 := Quarter(v[0], v[4], v[8], v[12], x[0], x[1]), Quarter(v[1], v[5], v[9], v[13], x[2], x[3]);
            var c2, c3 := Quarter(v[2], v[6], v[10], v[14], x[4], x[5]), Quarter(v[3], v[7], v[11], v[15], x[6], x[7]);
            var t0 := Mix(v, 0, 4, 8, 12, x[0], x[1]);
            var t1 := Mix(t0, 1, 5, 9, 13, x[2], x[3]);
            var t2 := Mix(t1, 2, 6, 10, 14, x[4], x[5]);
            Mix(t2, 3, 7, 11, 15, x[6], x[7]) == [c0.0, c1.0, c2.0, c3.0, c0.1, c1.1, c2.1, c3.1,
                                                  c0.2, c1.2, c2.2, c3.2, c0.3, c1.3, c2.3, c3.3]
  {
    hide HalfMix;
  }

  lemma Diagonals(v: seq<bv32>, x: seq<bv32>)
    requires |v| == 16 && |x| == 16
    ensures var d0, d1 := Quarter(v[0], v[5], v[10], v[15], x[8], x[9]),
                          Quarter(v[1], v[6], v[11], v[12], x[10], x[11]);
            var d2, d3 := Quarter(v[2], v[7], v[8], v[13], x[12], x[13]),
                          Quarter(v[3], v[4], v[9], v[14], x[14], x[15]);
            var t0 := Mix(v, 0, 5, 10, 15, x[8], x[9]);
            var t1 := Mix(t0, 1, 6, 11, 12, x[10], x[11]);
            var t2 := Mix(t1, 2, 7, 8, 13, x[12], x[13]);
            Mix(t2, 3, 4, 9, 14, x[14], x[15]) == [d0.0, d1.0, d2.0, d3.0, d3.1, d0.1, d1.1, d2.1,
                                                   d2.2, d3.2, d0.2, d1.2, d1.3, d2.3, d3.3, d0.3]
  {
    hide HalfMix;
  }

  /** The message words in the order of a round. */
  function Ordered(m: seq<bv32>, s: seq<nat>): (x: seq<bv32>)
    requires |m| == 16 && |s| == 16 && forall i :: 0 <= i < 16 ==> s[i] < 16
    ensures |x| == 16
  {
    [m[s[0]], m[s[1]], m[s[2]], m[s[3]], m[s[4]], m[s[5]], m[s[6]], m[s[7]],
     m[s[8]], m[s[9]], m[s[10]], m[s[11]], m[s[12]], m[s[13]], m[s[14]], m[s[15]]]
  }

  lemma RoundIs(v: seq<bv32>, m: seq<bv32>, s: seq<nat>)
    requires |v| == 16 && |m| == 16 && |s| == 16 && forall i :: 0 <= i < 16 ==> s[i] < 16
    ensures var x := Ordered(m, s);
            var c0, c1 := Quarter(v[0], v[4], v[8], v[12], x[0], x[1]), Quarter(v[1], v[5], v[9], v[13], x[2], x[3]);
            var c2, c3 := Quarter(v[2], v[6], v[10], v[14], x[4], x[5]), Quarter(v[3], v[7], v[11], v[15], x[6], x[7]);
            var d0, d1 := Quarter(c0.0, c1.1, c2.2, c3.3, x[8], x[9]), Quarter(c1.0, c2.1, c3.2, c0.3, x[10], x[11]);
            var d2, d3 := Quarter(c2.0, c3.1, c0.2, c1.3, x[12], x[13]), Quarter(c3.0, c0.1, c1.2, c2.3, x[14], x[15]);
            Round(v, m, s) == [d0.0, d1.0, d2.0, d3.0, d3.1, d0.1, d1.1, d2.1,
                               d2.2, d3.2, d0.2, d1.2, d1.3, d2.3, d3.3, d0.3]
  {
    hide Mix, Quarter;
    var x := Ordered(m, s);
    var c0, c1 := Quarter(v[0], v[4], v[8], v[12], x[0], x[1]), Quarter(v[1], v[5], v[9], v[13], x[2], x[3]);
    var c2, c3 := Quarter(v[2], v[6], v[10], v[14], x[4], x[5]), Quarter(v[3], v[7], v[11], v[15], x[6], x[7]);
    Columns(v, x);
    Diagonals([c0.0, c1.0, c2.0, c3.0, c0.1, c1.1, c2.1, c3.1, c0.2, c1.2, c2.2, c3.2, c0.3, c1.3, c2.3, c3.3], x);
  }

  const MESSAGE: seq<bv32> := [
    0x0302_0100, 0x0706_0504, 0x0b0a_0908, 0x0f0e_0d0c,
    0x1312_1110, 0x1716_1514, 0x1b1a_1918, 0x1f1e_1d1c,
    0x2322_2120, 0x2726_2524, 0x2b2a_2928, 0x2f2e_2d2c,
    0x3332_3130, 0x3736_3534, 0x3b3a_3938, 0x3f3e_3d3c]

  const KEY: seq<bv32> := [
    0x0302_0100, 0x0706_0504, 0x0b0a_0908, 0x0f0e_0d0c,
    0x1312_1110, 0x1716_1514, 0x1b1a_1918, 0x1f1e_1d1c,
    0x0000_0000, 0x0000_0000, 0x0000_0000, 0x0000_0000,
    0x0000_0000, 0x0000_0000, 0x0000_0000, 0x0000_0000]

  // The 64 bytes 00 to 3f, unkeyed

  const Plain0: seq<bv32> := [
    0x6b08_e647, 0xbb67_ae85, 0x3c6e_f372, 0xa54f_f53a,
    0x510e_527f, 0x9b05_688c, 0x1f83_d9ab, 0x5be0_cd19,
    0x6a09_e667, 0xbb67_ae85, 0x3c6e_f372, 0xa54f_f53a,
    0x510e_523f, 0x9b05_688c, 0xe07c_2654, 0x5be0_cd19]
  const Plain1: seq<bv32> := [
    0x551a_e487, 0xe4da_2403, 0xa9bd_8475, 0x9cff_5828,
    0xb1c1_37b7, 0x2111_91b6, 0x1c80_76e8, 0xbfd9_1c64,
    0x0b19_e36b, 0x17f2_8882, 0x09d1_65fa, 0x8768_d435,
    0x167c_077f, 0xaa7c_f6cd, 0xbd0f_4bb0, 0x1161_de54]
  const Plain2: seq<bv32> := [
    0x3b9d_4616, 0x5b27_be34, 0x80a2_323c, 0x52d8_4ec6,
    0x4b79_fc2b, 0xa72d_d3f5, 0x6ac3_68a8, 0xc226_abf3,
    0x8f2a_0fe5, 0x3be6_9746, 0xe47b_6b4e, 0x7611_ba9c,
    0x62fb_bc52, 0xefed_5a25, 0x29a5_aa70, 0xb200_84a0]
  const Plain3: seq<bv32> := [
    0xaf35_0697, 0x3dea_9efb, 0x6b20_3d35, 0x2df0_df0a,
    0x7b7e_656b, 0xaadc_b9f4, 0xda9c_0ab4, 0x695d_5939,
    0x7343_0219, 0x3c6d_fefb, 0xbd73_7c02, 0xc25f_ad9f,
    0x3c65_ee38, 0xda6e_9792, 0x75ea_aa99, 0xd19f_faa2]
  const Plain4: seq<bv32> := [
    0x154a_0882, 0xc0f8_72a9, 0xcda5_fa80, 0x1ae3_ce5d,
    0xd537_d0fc, 0x7427_0b05, 0x804a_803d, 0x15f6_c727,
    0xaa89_2030, 0x8663_848e, 0x5b72_07ba, 0x2a63_780d,
    0xff65_86f3, 0x98e2_e581, 0x1425_2609, 0xe8d5_629a]
  const Plain5: seq<bv32> := [
    0x4530_6eff, 0x5e9f_47fd, 0xfa8a_3725, 0x5122_d27e,
    0xb251_4014, 0x0b6d_117f, 0xd8a1_139a, 0x84d8_64df,
    0xdc67_9f9a, 0x3909_446f, 0xa5a5_1916, 0x51f3_a0a6,
    0x823f_0cc3, 0xd1c0_b424, 0x2e86_d627, 0x8564_de23]
  const Plain6: seq<bv32> := [
    0x07a2_d7eb, 0x980d_89fb, 0x1dbb_754a, 0x87bd_cffc,
    0x4742_3157, 0x8d84_0485, 0x609e_81e0, 0xa072_b93b,
    0xf3ee_74a2, 0x1981_3072, 0x0f38_3338, 0x78ec_244b,
    0x3e80_fb15, 0x7000_a680, 0xb405_7018, 0xfb58_499d]
  const Plain7: seq<bv32> := [
    0x9a74_bcbe, 0x2fbd_9a24, 0x9aa0_6aa6, 0xe453_8527,
    0x9d97_659e, 0x4aff_b34b, 0x19e8_1fda, 0x64fc_7e29,
    0x0689_2609, 0x0014_3841, 0xa1f4_9273, 0xa85d_4eff,
    0x19bd_540f, 0x7712_1f33, 0x1aa3_ea9f, 0x787c_f68f]
  const Plain8: seq<bv32> := [
    0xafe5_b773, 0x7c7e_4164, 0x372d_a8b3, 0x6413_8a33,
    0x1f0a_ef51, 0x7771_6f36, 0x2383_8a59, 0x022f_3f6c,
    0x8962_1be7, 0x1f49_b200, 0xae82_d736, 0xa79a_2122,
    0x4d1b_a906, 0xca47_e0f0, 0x3d22_ff70, 0xab04_5142]
  const Plain9: seq<bv32> := [
    0xe8de_94ca, 0x323c_a86b, 0x0141_7812, 0x8e20_a95a,
    0xc396_3785, 0xcd87_0523, 0x5b72_8f73, 0x2ee7_0294,
    0xe5f2_f14c, 0x69ea_170f, 0x4e7b_64fb, 0x7708_f986,
    0xb147_4f87, 0x7b5e_0394, 0x22ec_9d44, 0xc6e8_b8d7]
  const Plain10: seq<bv32> := [
    0x52ce_3f4f, 0x01dc_d057, 0x7143_ac5d, 0xaa91_070d,
    0xc0c4_a8c8, 0x8f69_38ec, 0xce79_480d, 0x4c13_73b9,
    0xb288_2a5e, 0x2ac5_2b44, 0x1f66_adee, 0x5e43_3ae7,
    0x8a05_90bf, 0xdb58_a660, 0xe268_4fbb, 0x2959_5418]

  lemma PlainRound1()
    ensures Round(Plain0, MESSAGE, Sigma(0)) == Plain1
  {
    hide Round;
    RoundIs(Plain0, MESSAGE, Sigma(0));
  }

  lemma PlainRound2()
    ensures Round(Plain1, MESSAGE, Sigma(1)) == Plain2
  {
    hide Round;
    RoundIs(Plain1, MESSAGE, Sigma(1));
  }

  lemma PlainRound3()
    ensures Round(Plain2, MESSAGE, Sigma(2)) == Plain3
  {
    hide Round;
    RoundIs(Plain2, MESSAGE, Sigma(2));
  }

  lemma PlainRound4()
    ensures Round(Plain3, MESSAGE, Sigma(3)) == Plain4
  {
    hide Round;
    RoundIs(Plain3, MESSAGE, Sigma(3));
  }

  lemma PlainRound5()
    ensures Round(Plain4, MESSAGE, Sigma(4)) == Plain5
  {
    hide Round;
    RoundIs(Plain4, MESSAGE, Sigma(4));
  }

  lemma PlainRound6()
    ensures Round(Plain5, MESSAGE, Sigma(5)) == Plain6
  {
    hide Round;
    RoundIs(Plain5, MESSAGE, Sigma(5));
  }

  lemma PlainRound7()
    ensures Round(Plain6, MESSAGE, Sigma(6)) == Plain7
  {
    hide Round;
    RoundIs(Plain6, MESSAGE, Sigma(6));
  }

  lemma PlainRound8()
    ensures Round(Plain7, MESSAGE, Sigma(7)) == Plain8
  {
    hide Round;
    RoundIs(Plain7, MESSAGE, Sigma(7));
  }

  lemma PlainRound9()
    ensures Round(Plain8, MESSAGE, Sigma(8)) == Plain9
  {
    hide Round;
    RoundIs(Plain8, MESSAGE, Sigma(8));
  }

  lemma PlainRound10()
    ensures Round(Plain9, MESSAGE, Sigma(9)) == Plain10
  {
    hide Round;
    RoundIs(Plain9, MESSAGE, Sigma(9));
  }

  lemma PlainRounds()
    ensures Rounds(Plain0, MESSAGE, 10) == Plain10
  {
    hide Round, Sigma;
    PlainRound1();
    PlainRound2();
    PlainRound3();
    PlainRound4();
    PlainRound5();
    PlainRound6();
    PlainRound7();
    PlainRound8();
    PlainRound9();
    PlainRound10();
    assert Rounds(Plain0, MESSAGE, 0) == Plain0;
    assert Rounds(Plain0, MESSAGE, 1) == Plain1;
    assert Rounds(Plain0, MESSAGE, 2) == Plain2;
    assert Rounds(Plain0, MESSAGE, 3) == Plain3;
    assert Rounds(Plain0, MESSAGE, 4) == Plain4;
    assert Rounds(Plain0, MESSAGE, 5) == Plain5;
    assert Rounds(Plain0, MESSAGE, 6) == Plain6;
    assert Rounds(Plain0, MESSAGE, 7) == Plain7;
    assert Rounds(Plain0, MESSAGE, 8) == Plain8;
    assert Rounds(Plain0, MESSAGE, 9) == Plain9;
    assert Rounds(Plain0, MESSAGE, 10) == Plain10;
  }

  // The key 00 to 1f as a block of its own

  const Key0: seq<bv32> := [
    0x6b08_c647, 0xbb67_ae85, 0x3c6e_f372, 0xa54f_f53a,
    0x510e_527f, 0x9b05_688c, 0x1f83_d9ab, 0x5be0_cd19,
    0x6a09_e667, 0xbb67_ae85, 0x3c6e_f372, 0xa54f_f53a,
    0x510e_523f, 0x9b05_688c, 0x1f83_d9ab, 0x5be0_cd19]
  const Key1: seq<bv32> := [
    0x79d8_47d7, 0xe58d_e31a, 0xae58_5a1b, 0x014c_b14a,
    0xcb12_f282, 0xeddf_c2eb, 0xe33a_a2b0, 0x3070_309c,
    0x5d9f_b290, 0x1e97_97a1, 0x1ff8_fd88, 0x86ea_4eff,
    0xa5ed_609f, 0xfb58_8dd1, 0x3b1d_00f3, 0x24f2_3cd2]
  const Key2: seq<bv32> := [
    0x6417_7c72, 0x3dde_73c8, 0x96a1_e325, 0x99b8_c58e,
    0x4324_a776, 0xe2e1_deb1, 0x7bf3_9125, 0x4241_093f,
    0x9233_743b, 0x8b74_432c, 0x5b9e_4229, 0xf06a_dca2,
    0xf6d5_efc3, 0x9c32_2c5c, 0xcc73_8a40, 0x90dd_d9e9]
  const Key3: seq<bv32> := [
    0x9a36_4e23, 0x9ef9_a652, 0xe948_67df, 0xf20a_0d97,
    0xc2a2_c6eb, 0x5104_4a26, 0xc9e6_be10, 0x563e_5205,
    0x6c1b_5dfa, 0x10a4_86e3, 0x8fab_7ac7, 0x6645_fa09,
    0xe672_9e2f, 0xbf0e_75cc, 0x6212_8d19, 0x58d4_6249]
  const Key4: seq<bv32> := [
    0x40f5_caf6, 0xf126_0721, 0xe5a2_bd2b, 0xc212_55b5,
    0xb899_fe4b, 0xda82_cb2b, 0x5a08_0333, 0x3283_1b04,
    0x726d_e766, 0x69b5_0147, 0x03a2_e32e, 0xc2d7_34d1,
    0x97e9_c4e5, 0xb105_ef06, 0x017b_e3ca, 0x0df9_7f44]
  const Key5: seq<bv32> := [
    0x45c4_1702, 0x66d9_3e3b, 0xd3ca_bb74, 0xc4d3_f93e,
    0x957f_db41, 0xcf45_16ea, 0x71da_afe1, 0x6548_330a,
    0xbbf8_f8b3, 0xb7aa_a3dd, 0x5eba_f642, 0xac19_cf84,
    0x0939_1a86, 0x71ff_e4a6, 0xa230_a162, 0xc905_9225]
  const Key6: seq<bv32> := [
    0x059a_8407, 0x289f_cc74, 0x436d_5656, 0xabb5_0d8e,
    0xd409_754d, 0x39da_a019, 0x8fdc_fb6b, 0xdf3b_8043,
    0x6c4e_1f3d, 0x4fac_2e54, 0xd8a0_9a20, 0xe74a_3a8f,
    0xdb63_ee6e, 0x75ee_f78a, 0xe135_8123, 0x421e_041e]
  const Key7: seq<bv32> := [
    0x6e94_da1e, 0x01e0_6da8, 0xdb5b_5d83, 0x0fba_41dc,
    0x3f16_af19, 0x82ac_f5e9, 0x3f43_0951, 0x3922_38ca,
    0x72ab_b739, 0x504d_e4bc, 0xe7c5_9ce6, 0x9100_2dc7,
    0xc95f_2012, 0x8b7d_22b0, 0xc1b8_86ae, 0x3f4d_e6a1]
  const Key8: seq<bv32> := [
    0xacc9_e925, 0x8bdb_bde4, 0xfcb7_362a, 0x3b8f_3084,
    0x4c15_cb87, 0x9608_83bc, 0xdfa7_7346, 0x132c_becf,
    0x62f5_2b79, 0xa94e_f8f9, 0x24ac_a816, 0xd02e_32c9,
    0x9f58_448e, 0x5153_3020, 0xb037_ad8e, 0xdcf9_530a]
  const Key9: seq<bv32> := [
    0x1e4f_b78c, 0xfae9_750b, 0x7cb9_1e41, 0xcb12_61d2,
    0x7c80_4d5e, 0xe1cf_6dec, 0x867f_d7a6, 0x8e31_22d5,
    0x83a9_9acc, 0x92dc_3a33, 0xc31f_bf13, 0x9f3a_ca46,
    0x355d_5f85, 0x9c4c_e179, 0x888e_d8ab, 0x8ec1_1817]
  const Key10: seq<bv32> := [
    0xea3d_ceed, 0xece0_6ef0, 0x6189_4d64, 0xe620_012b,
    0x02e1_cc5b, 0x86be_b119, 0x8edd_d916, 0x1a35_b3f8,
    0x6150_eda7, 0x5620_1605, 0x94d4_05b2, 0xc505_500f,
    0x4b44_a021, 0x3b56_1d07, 0x959b_9af2, 0xd408_2470]

  lemma KeyRound1()
    ensures Round(Key0, KEY, Sigma(0)) == Key1
  {
    hide Round;
    RoundIs(Key0, KEY, Sigma(0));
  }

  lemma KeyRound2()
    ensures Round(Key1, KEY, Sigma(1)) == Key2
  {
    hide Round;
    RoundIs(Key1, KEY, Sigma(1));
  }

  lemma KeyRound3()
    ensures Round(Key2, KEY, Sigma(2)) == Key3
  {
    hide Round;
    RoundIs(Key2, KEY, Sigma(2));
  }

  lemma KeyRound4()
    ensures Round(Key3, KEY, Sigma(3)) == Key4
  {
    hide Round;
    RoundIs(Key3, KEY, Sigma(3));
  }

  lemma KeyRound5()
    ensures Round(Key4, KEY, Sigma(4)) == Key5
  {
    hide Round;
    RoundIs(Key4, KEY, Sigma(4));
  }

  lemma KeyRound6()
    ensures Round(Key5, KEY, Sigma(5)) == Key6
  {
    hide Round;
    RoundIs(Key5, KEY, Sigma(5));
  }

  lemma KeyRound7()
    ensures Round(Key6, KEY, Sigma(6)) == Key7
  {
    hide Round;
    RoundIs(Key6, KEY, Sigma(6));
  }

  lemma KeyRound8()
    ensures Round(Key7, KEY, Sigma(7)) == Key8
  {
    hide Round;
    RoundIs(Key7, KEY, Sigma(7));
  }

  lemma KeyRound9()
    ensures Round(Key8, KEY, Sigma(8)) == Key9
  {
    hide Round;
    RoundIs(Key8, KEY, Sigma(8));
  }

  lemma KeyRound10()
    ensures Round(Key9, KEY, Sigma(9)) == Key10
  {
    hide Round;
    RoundIs(Key9, KEY, Sigma(9));
  }

  lemma KeyRounds()
    ensures Rounds(Key0, KEY, 10) == Key10
  {
    hide Round, Sigma;
    KeyRound1();
    KeyRound2();
    KeyRound3();
    KeyRound4();
    KeyRound5();
    KeyRound6();
    KeyRound7();
    KeyRound8();
    KeyRound9();
    KeyRound10();
    assert Rounds(Key0, KEY, 0) == Key0;
    assert Rounds(Key0, KEY, 1) == Key1;
    assert Rounds(Key0, KEY, 2) == Key2;
    assert Rounds(Key0, KEY, 3) == Key3;
    assert Rounds(Key0, KEY, 4) == Key4;
    assert Rounds(Key0, KEY, 5) == Key5;
    assert Rounds(Key0, KEY, 6) == Key6;
    assert Rounds(Key0, KEY, 7) == Key7;
    assert Rounds(Key0, KEY, 8) == Key8;
    assert Rounds(Key0, KEY, 9) == Key9;
    assert Rounds(Key0, KEY, 10) == Key10;
  }

  // The 36 bytes 00 to 23 after the key block

  const TAIL: seq<bv32> := [
    0x0302_0100, 0x0706_0504, 0x0b0a_0908, 0x0f0e_0d0c,
    0x1312_1110, 0x1716_1514, 0x1b1a_1918, 0x1f1e_1d1c,
    0x2322_2120, 0x0000_0000, 0x0000_0000, 0x0000_0000,
    0x0000_0000, 0x0000_0000, 0x0000_0000, 0x0000_0000]

  const Last0: seq<bv32> := [
    0xe065_e50d, 0x01a7_d670, 0xc933_bba4, 0x866a_a41e,
    0x18ab_3e05, 0x26ed_c492, 0x04c5_9a4f, 0x95dd_5a91,
    0x6a09_e667, 0xbb67_ae85, 0x3c6e_f372, 0xa54f_f53a,
    0x510e_521b, 0x9b05_688c, 0xe07c_2654, 0x5be0_cd19]
  const Last1: seq<bv32> := [
    0xc8f8_41e4, 0x1189_fa90, 0x76ed_173e, 0xc169_a004,
    0xa7da_4194, 0x6662_eaee, 0x941a_660e, 0xf63d_751d,
    0x9bae_e73f, 0x64ac_8703, 0x56a7_1aa0, 0xb8cd_1bf6,
    0xb6fd_441c, 0x51da_fe33, 0x7a4d_d0fd, 0x1293_51b4]
  const Last2: seq<bv32> := [
    0xd85c_9bf7, 0xed3c_3b23, 0xdc07_f82d, 0xa01f_b237,
    0x1516_a29e, 0xd0c8_6e90, 0x1853_e2cd, 0x2dba_c87b,
    0x6f7f_f060, 0xa472_71c7, 0x4ec6_e548, 0x9359_a69e,
    0x2d85_2325, 0xd1dd_0fe0, 0x9d27_b1e3, 0xcf92_ca36]
  const Last3: seq<bv32> := [
    0x1a00_c14f, 0xbe67_e326, 0x8dac_57d4, 0xb9e5_2a90,
    0xd0dc_4353, 0xbacb_8a16, 0x9452_b0bb, 0x67bd_6105,
    0xe2c8_0b06, 0xf25e_0f76, 0xf1c7_376c, 0x1b68_7908,
    0x6bb5_0972, 0xeb07_934f, 0x2992_16f9, 0xd6aa_7d24]
  const Last4: seq<bv32> := [
    0x3e49_53bb, 0xe62a_ba15, 0x899f_ff07, 0xc71d_c048,
    0x147e_ea14, 0x927f_a179, 0x8637_e076, 0x233e_2138,
    0x2411_15bd, 0x6478_69ff, 0x47d4_c604, 0x1efe_0854,
    0xcbd4_6055, 0x6b17_3d49, 0xa0ad_6962, 0x55c9_8ef6]
  const Last5: seq<bv32> := [
    0x2f43_f4c0, 0x66e2_56dc, 0xb543_5105, 0x9315_bd5d,
    0x97c2_21d4, 0xb315_fe21, 0x68c7_bb58, 0x0cb8_5eda,
    0x9870_cf3a, 0xf7b6_f8e5, 0x0caf_ce5b, 0x3cb6_1de6,
    0x55fa_ed6e, 0x2003_8137, 0x8386_f2c6, 0x1a0e_70e9]
  const Last6: seq<bv32> := [
    0xba49_d294, 0xfe2c_cd48, 0x7035_b82d, 0x6996_2ea7,
    0x93cb_bb54, 0x2688_fce7, 0x9b15_f659, 0x4268_725b,
    0x6bbc_ba1c, 0xe448_eedc, 0x741d_bc60, 0xa3be_93df,
    0x2be4_6029, 0x00f5_9a5d, 0x84eb_70e4, 0x6ae0_8788]
  const Last7: seq<bv32> := [
    0x2834_56d1, 0xc8f7_ce58, 0xaa4f_c3c7, 0x4699_5183,
    0xccdc_5b97, 0x6d48_c35e, 0xeddd_7dbc, 0xdde3_d88b,
    0xe3dd_d042, 0x86a9_33da, 0xb5c0_ef73, 0x316b_de12,
    0xbb01_34b0, 0x1e6c_b431, 0xf995_164e, 0xe811_f472]
  const Last8: seq<bv32> := [
    0xed3c_b15c, 0x0ed7_e14f, 0x1d92_486b, 0x0300_8633,
    0x7c71_f481, 0x7587_ab89, 0x65e4_df3c, 0x4852_5914,
    0xf7e6_e49b, 0xacb5_63b3, 0x504b_855c, 0xe3c5_73a0,
    0x826f_2d16, 0xc6b5_3644, 0xbd1c_0ce9, 0x4616_5bed]
  const Last9: seq<bv32> := [
    0xeb1b_4f90, 0x64f5_5e6e, 0x221e_2ac9, 0xfd34_5d17,
    0xf37a_af7c, 0xe687_bf84, 0x8a33_8dd1, 0xfc79_5adb,
    0xb7ce_4540, 0xf8af_b516, 0x30ec_ca06, 0x672d_09a1,
    0x97d0_2749, 0x8eee_1d7b, 0x78b8_8212, 0x559b_7558]
  const Last10: seq<bv32> := [
    0x35a5_247e, 0x5ac6_11d5, 0x674a_1c7f, 0xf4b3_8c22,
    0xd3c4_158d, 0x639f_0c9a, 0xb408_6f13, 0x2df0_0d82,
    0xf40b_b46d, 0x59e8_ce63, 0x0988_d2d8, 0xed5a_6a9e,
    0x5c07_2083, 0x4058_8432, 0x5d98_8093, 0x79e9_f949]

  lemma LastRound1()
    ensures Round(Last0, TAIL, Sigma(0)) == Last1
  {
    hide Round;
    RoundIs(Last0, TAIL, Sigma(0));
  }

  lemma LastRound2()
    ensures Round(Last1, TAIL, Sigma(1)) == Last2
  {
    hide Round;
    RoundIs(Last1, TAIL, Sigma(1));
  }

  lemma LastRound3()
    ensures Round(Last2, TAIL, Sigma(2)) == Last3
  {
    hide Round;
    RoundIs(Last2, TAIL, Sigma(2));
  }

  lemma LastRound4()
    ensures Round(Last3, TAIL, Sigma(3)) == Last4
  {
    hide Round;
    RoundIs(Last3, TAIL, Sigma(3));
  }

  lemma LastRound5()
    ensures Round(Last4, TAIL, Sigma(4)) == Last5
  {
    hide Round;
    RoundIs(Last4, TAIL, Sigma(4));
  }

  lemma LastRound6()
    ensures Round(Last5, TAIL, Sigma(5)) == Last6
  {
    hide Round;
    RoundIs(Last5, TAIL, Sigma(5));
  }

  lemma LastRound7()
    ensures Round(Last6, TAIL, Sigma(6)) == Last7
  {
    hide Round;
    RoundIs(Last6, TAIL, Sigma(6));
  }

  lemma LastRound8()
    ensures Round(Last7, TAIL, Sigma(7)) == Last8
  {
    hide Round;
    RoundIs(Last7, TAIL, Sigma(7));
  }

  lemma LastRound9()
    ensures Round(Last8, TAIL, Sigma(8)) == Last9
  {
    hide Round;
    RoundIs(Last8, TAIL, Sigma(8));
  }

  lemma LastRound10()
    ensures Round(Last9, TAIL, Sigma(9)) == Last10
  {
    hide Round;
    RoundIs(Last9, TAIL, Sigma(9));
  }

  lemma LastRounds()
    ensures Rounds(Last0, TAIL, 10) == Last10
  {
    hide Round, Sigma;
    LastRound1();
    LastRound2();
    LastRound3();
    LastRound4();
    LastRound5();
    LastRound6();
    LastRound7();
    LastRound8();
    LastRound9();
    LastRound10();
    assert Rounds(Last0, TAIL, 0) == Last0;
    assert Rounds(Last0, TAIL, 1) == Last1;
    assert Rounds(Last0, TAIL, 2) == Last2;
    assert Rounds(Last0, TAIL, 3) == Last3;
    assert Rounds(Last0, TAIL, 4) == Last4;
    assert Rounds(Last0, TAIL, 5) == Last5;
    assert Rounds(Last0, TAIL, 6) == Last6;
    assert Rounds(Last0, TAIL, 7) == Last7;
    assert Rounds(Last0, TAIL, 8) == Last8;
    assert Rounds(Last0, TAIL, 9) == Last9;
    assert Rounds(Last0, TAIL, 10) == Last10;
  }

  // The compressions

  lemma Entries16(s: seq<bv32>)
    requires |s| == 16
    ensures s == [s[0], s[1], s[2], s[3], s[4], s[5], s[6], s[7],
                  s[8], s[9], s[10], s[11], s[12], s[13], s[14], s[15]]
  {
  }

  lemma Entries8(s: seq<u32>)
    requires |s| == 8
    ensures s == [s[0], s[1], s[2], s[3], s[4], s[5], s[6], s[7]]
  {
  }

  lemma MessageWord(block: seq<byte>, i: nat)
    requires |block| == 64 && i < 16
    ensures MessageWords(block)[i] == Word(Load32(block, 4 * i))
  {
  }

  lemma LowWords()
    ensures Word(0x0302_0100) == 0x0302_0100 && Word(0x0706_0504) == 0x0706_0504
    ensures Word(0x0b0a_0908) == 0x0b0a_0908 && Word(0x0f0e_0d0c) == 0x0f0e_0d0c
    ensures Word(0x1312_1110) == 0x1312_1110 && Word(0x1716_1514) == 0x1716_1514
    ensures Word(0x1b1a_1918) == 0x1b1a_1918 && Word(0x1f1e_1d1c) == 0x1f1e_1d1c
  {
  }

  lemma HighWords()
    ensures Word(0x2322_2120) == 0x2322_2120 && Word(0x2726_2524) == 0x2726_2524
    ensures Word(0x2b2a_2928) == 0x2b2a_2928 && Word(0x2f2e_2d2c) == 0x2f2e_2d2c
    ensures Word(0x3332_3130) == 0x3332_3130 && Word(0x3736_3534) == 0x3736_3534
    ensures Word(0x3b3a_3938) == 0x3b3a_3938 && Word(0x3f3e_3d3c) == 0x3f3e_3d3c
  {
  }

  lemma CountingWords()
    ensures MessageWords(Counting(64)) == MESSAGE
  {
    hide Load32, Word, MessageWords;
    LowWords();
    HighWords();
    Entries16(MessageWords(Counting(64)));
    CountingLoads(Counting(64), 0);
    MessageWord(Counting(64), 0);
    CountingLoads(Counting(64), 1);
    MessageWord(Counting(64), 1);
    CountingLoads(Counting(64), 2);
    MessageWord(Counting(64), 2);
    CountingLoads(Counting(64), 3);
    MessageWord(Counting(64), 3);
    CountingLoads(Counting(64), 4);
    MessageWord(Counting(64), 4);
    CountingLoads(Counting(64), 5);
    MessageWord(Counting(64), 5);
    CountingLoads(Counting(64), 6);
    MessageWord(Counting(64), 6);
    CountingLoads(Counting(64), 7);
    MessageWord(Counting(64), 7);
    CountingLoads(Counting(64), 8);
    MessageWord(Counting(64), 8);
    CountingLoads(Counting(64), 9);
    MessageWord(Counting(64), 9);
    CountingLoads(Counting(64), 10);
    MessageWord(Counting(64), 10);
    CountingLoads(Counting(64), 11);
    MessageWord(Counting(64), 11);
    CountingLoads(Counting(64), 12);
    MessageWord(Counting(64), 12);
    CountingLoads(Counting(64), 13);
    MessageWord(Counting(64), 13);
    CountingLoads(Counting(64), 14);
    MessageWord(Counting(64), 14);
    CountingLoads(Counting(64), 15);
    MessageWord(Counting(64), 15);
  }

  lemma ZeroLoads(s: seq<byte>, i: nat)
    requires i + 4 <= |s| && (forall j :: i <= j < i + 4 ==> s[j] == 0)
    ensures Load32(s, i) == 0
  {
  }

  lemma KeyWords()
    ensures MessageWords(Counting(32) + Zeros(32)) == KEY
  {
    hide Load32, Word, MessageWords;
    LowWords();
    ZeroWord();
    var k := Counting(32) + Zeros(32);
    Entries16(MessageWords(k));
    CountingLoads(k, 0);
    MessageWord(k, 0);
    CountingLoads(k, 1);
    MessageWord(k, 1);
    CountingLoads(k, 2);
    MessageWord(k, 2);
    CountingLoads(k, 3);
    MessageWord(k, 3);
    CountingLoads(k, 4);
    MessageWord(k, 4);
    CountingLoads(k, 5);
    MessageWord(k, 5);
    CountingLoads(k, 6);
    MessageWord(k, 6);
    CountingLoads(k, 7);
    MessageWord(k, 7);
    ZeroLoads(k, 32);
    MessageWord(k, 8);
    ZeroLoads(k, 36);
    MessageWord(k, 9);
    ZeroLoads(k, 40);
    MessageWord(k, 10);
    ZeroLoads(k, 44);
    MessageWord(k, 11);
    ZeroLoads(k, 48);
    MessageWord(k, 12);
    ZeroLoads(k, 52);
    MessageWord(k, 13);
    ZeroLoads(k, 56);
    MessageWord(k, 14);
    ZeroLoads(k, 60);
    MessageWord(k, 15);
  }

  lemma TailWords()
    ensures MessageWords(Counting(36) + Zeros(28)) == TAIL
  {
    hide Load32, Word, MessageWords;
    LowWords();
    HighWords();
    ZeroWord();
    var k := Counting(36) + Zeros(28);
    Entries16(MessageWords(k));
    CountingLoads(k, 0);
    MessageWord(k, 0);
    CountingLoads(k, 1);
    MessageWord(k, 1);
    CountingLoads(k, 2);
    MessageWord(k, 2);
    CountingLoads(k, 3);
    MessageWord(k, 3);
    CountingLoads(k, 4);
    MessageWord(k, 4);
    CountingLoads(k, 5);
    MessageWord(k, 5);
    CountingLoads(k, 6);
    MessageWord(k, 6);
    CountingLoads(k, 7);
    MessageWord(k, 7);
    CountingLoads(k, 8);
    MessageWord(k, 8);
    ZeroLoads(k, 36);
    MessageWord(k, 9);
    ZeroLoads(k, 40);
    MessageWord(k, 10);
    ZeroLoads(k, 44);
    MessageWord(k, 11);
    ZeroLoads(k, 48);
    MessageWord(k, 12);
    ZeroLoads(k, 52);
    MessageWord(k, 13);
    ZeroLoads(k, 56);
    MessageWord(k, 14);
    ZeroLoads(k, 60);
    MessageWord(k, 15);
  }

  lemma ZeroWord()
    ensures Word(0) == 0
  {
  }

  lemma FoldEntry(h: seq<u32>, v: seq<bv32>, i: nat)
    requires |h| == 8 && |v| == 16 && i < 8
    ensures Fold(h, v)[i] == Fold1(h[i], v[i], v[i + 8])
  {
    hide Fold1;
  }

  lemma FoldIs(h: seq<u32>, v: seq<bv32>)
    requires |h| == 8 && |v| == 16
    ensures Fold(h, v) == [Fold1(h[0], v[0], v[8]), Fold1(h[1], v[1], v[9]), Fold1(h[2], v[2], v[10]),
                           Fold1(h[3], v[3], v[11]), Fold1(h[4], v[4], v[12]), Fold1(h[5], v[5], v[13]),
                           Fold1(h[6], v[6], v[14]), Fold1(h[7], v[7], v[15])]
  {
    hide Fold1, Fold;
    Entries8(Fold(h, v));
    FoldEntry(h, v, 0);
    FoldEntry(h, v, 1);
    FoldEntry(h, v, 2);
    FoldEntry(h, v, 3);
    FoldEntry(h, v, 4);
    FoldEntry(h, v, 5);
    FoldEntry(h, v, 6);
    FoldEntry(h, v, 7);
  }

  const PLAIN_START: seq<u32> := [
    0x6b08_e647, 0xbb67_ae85, 0x3c6e_f372, 0xa54f_f53a,
    0x510e_527f, 0x9b05_688c, 0x1f83_d9ab, 0x5be0_cd19]
  const KEY_START: seq<u32> := [
    0x6b08_c647, 0xbb67_ae85, 0x3c6e_f372, 0xa54f_f53a,
    0x510e_527f, 0x9b05_688c, 0x1f83_d9ab, 0x5be0_cd19]
  const KEY_CHAIN: seq<u32> := [
    0xe065_e50d, 0x01a7_d670, 0xc933_bba4, 0x866a_a41e,
    0x18ab_3e05, 0x26ed_c492, 0x04c5_9a4f, 0x95dd_5a91]
  const PLAIN_END: seq<u32> := [
    0x8b4e_f356, 0x907e_5596, 0x524b_f2c1, 0x519d_c8d0,
    0x1bcf_6a08, 0xcf34_f600, 0x3392_de1d, 0x3eaa_eab8]
  const KEYED_END: seq<u32> := [
    0x21cb_751e, 0x0289_09c6, 0xa7f1_7503, 0x9f83_42a2,
    0x9768_0b0b, 0x052a_4c3a, 0xed55_75cf, 0xc1c4_ae5a]

  lemma SmallWords()
    ensures Word(0) == 0 && Word(16) == 16 && Word(32) == 32 && Word(IV[0]) == 0x6a09_e667
  {
  }

  lemma PlainParameters()
    ensures ParameterWord(32, 0) == 0x6b08_e647
  {
    SmallWords();
    hide Word;
  }

  lemma KeyedParameters()
    ensures ParameterWord(32, 32) == 0x6b08_c647
  {
    SmallWords();
    hide Word;
  }

  lemma Starts()
    ensures Start(32, 0) == PLAIN_START && Start(32, 32) == KEY_START
  {
    hide ParameterWord;
    PlainParameters();
    KeyedParameters();
  }

  lemma IVWords()
    ensures Word(0x6a09_e667) == 0x6a09_e667 && Word(0xbb67_ae85) == 0xbb67_ae85
    ensures Word(0x3c6e_f372) == 0x3c6e_f372 && Word(0xa54f_f53a) == 0xa54f_f53a
    ensures Word(0x510e_527f) == 0x510e_527f && Word(0x9b05_688c) == 0x9b05_688c
    ensures Word(0x1f83_d9ab) == 0x1f83_d9ab && Word(0x5be0_cd19) == 0x5be0_cd19
  {
  }

  lemma ChainWords()
    ensures Word(0xe065_e50d) == 0xe065_e50d && Word(0x01a7_d670) == 0x01a7_d670
    ensures Word(0xc933_bba4) == 0xc933_bba4 && Word(0x866a_a41e) == 0x866a_a41e
    ensures Word(0x18ab_3e05) == 0x18ab_3e05 && Word(0x26ed_c492) == 0x26ed_c492
    ensures Word(0x04c5_9a4f) == 0x04c5_9a4f && Word(0x95dd_5a91) == 0x95dd_5a91
  {
  }

  lemma OtherWords()
    ensures Word(0x6b08_e647) == 0x6b08_e647 && Word(0x6b08_c647) == 0x6b08_c647
    ensures Word(0x0000_0040) == 0x0000_0040 && Word(0x0000_0064) == 0x0000_0064
  {
  }

  lemma PlainVector()
    ensures WorkVector(PLAIN_START, 64, true) == Plain0
  {
    IVWords();
    ZeroWord();
    OtherWords();
    hide Word;
  }

  lemma KeyVector()
    ensures WorkVector(KEY_START, 64, false) == Key0
  {
    IVWords();
    ZeroWord();
    OtherWords();
    hide Word;
  }

  lemma LastVector()
    ensures WorkVector(KEY_CHAIN, 100, true) == Last0
  {
    IVWords();
    ZeroWord();
    OtherWords();
    ChainWords();
    hide Word;
  }

  lemma PlainFold()
    ensures Fold(PLAIN_START, Plain10) == PLAIN_END
  {
    hide Fold1, Fold;
    PlainFolds();
    FoldIs(PLAIN_START, Plain10);
  }

  lemma PlainFolds()
    ensures Fold1(0x6b08_e647, 0x52ce_3f4f, 0xb288_2a5e) == 0x8b4e_f356
    ensures Fold1(0xbb67_ae85, 0x01dc_d057, 0x2ac5_2b44) == 0x907e_5596
    ensures Fold1(0x3c6e_f372, 0x7143_ac5d, 0x1f66_adee) == 0x524b_f2c1
    ensures Fold1(0xa54f_f53a, 0xaa91_070d, 0x5e43_3ae7) == 0x519d_c8d0
    ensures Fold1(0x510e_527f, 0xc0c4_a8c8, 0x8a05_90bf) == 0x1bcf_6a08
    ensures Fold1(0x9b05_688c, 0x8f69_38ec, 0xdb58_a660) == 0xcf34_f600
    ensures Fold1(0x1f83_d9ab, 0xce79_480d, 0xe268_4fbb) == 0x3392_de1d
    ensures Fold1(0x5be0_cd19, 0x4c13_73b9, 0x2959_5418) == 0x3eaa_eab8
  {
  }

  lemma KeyFold()
    ensures Fold(KEY_START, Key10) == KEY_CHAIN
  {
    hide Fold1, Fold;
    KeyFolds();
    FoldIs(KEY_START, Key10);
  }

  lemma KeyFolds()
    ensures Fold1(0x6b08_c647, 0xea3d_ceed, 0x6150_eda7) == 0xe065_e50d
    ensures Fold1(0xbb67_ae85, 0xece0_6ef0, 0x5620_1605) == 0x01a7_d670
    ensures Fold1(0x3c6e_f372, 0x6189_4d64, 0x94d4_05b2) == 0xc933_bba4
    ensures Fold1(0xa54f_f53a, 0xe620_012b, 0xc505_500f) == 0x866a_a41e
    ensures Fold1(0x510e_527f, 0x02e1_cc5b, 0x4b44_a021) == 0x18ab_3e05
    ensures Fold1(0x9b05_688c, 0x86be_b119, 0x3b56_1d07) == 0x26ed_c492
    ensures Fold1(0x1f83_d9ab, 0x8edd_d916, 0x959b_9af2) == 0x04c5_9a4f
    ensures Fold1(0x5be0_cd19, 0x1a35_b3f8, 0xd408_2470) == 0x95dd_5a91
  {
  }

  lemma LastFold()
    ensures Fold(KEY_CHAIN, Last10) == KEYED_END
  {
    hide Fold1, Fold;
    LastFolds();
    FoldIs(KEY_CHAIN, Last10);
  }

  lemma LastFolds()
    ensures Fold1(0xe065_e50d, 0x35a5_247e, 0xf40b_b46d) == 0x21cb_751e
    ensures Fold1(0x01a7_d670, 0x5ac6_11d5, 0x59e8_ce63) == 0x0289_09c6
    ensures Fold1(0xc933_bba4, 0x674a_1c7f, 0x0988_d2d8) == 0xa7f1_7503
    ensures Fold1(0x866a_a41e, 0xf4b3_8c22, 0xed5a_6a9e) == 0x9f83_42a2
    ensures Fold1(0x18ab_3e05, 0xd3c4_158d, 0x5c07_2083) == 0x9768_0b0b
    ensures Fold1(0x26ed_c492, 0x639f_0c9a, 0x4058_8432) == 0x052a_4c3a
    ensures Fold1(0x04c5_9a4f, 0xb408_6f13, 0x5d98_8093) == 0xed55_75cf
    ensures Fold1(0x95dd_5a91, 0x2df0_0d82, 0x79e9_f949) == 0xc1c4_ae5a
  {
  }

  // The digests

  const PLAIN_DIGEST: seq<byte> := [
    0x56, 0xf3, 0x4e, 0x8b, 0x96, 0x55, 0x7e, 0x90, 0xc1, 0xf2, 0x4b, 0x52, 0xd0, 0xc8, 0x9d, 0x51,
    0x08, 0x6a, 0xcf, 0x1b, 0x00, 0xf6, 0x34, 0xcf, 0x1d, 0xde, 0x92, 0x33, 0xb8, 0xea, 0xaa, 0x3e]

  const KEYED_DIGEST: seq<byte> := [
    0x1e, 0x75, 0xcb, 0x21, 0xc6, 0x09, 0x89, 0x02, 0x03, 0x75, 0xf1, 0xa7, 0xa2, 0x42, 0x83, 0x9f,
    0x0b, 0x0b, 0x68, 0x97, 0x3a, 0x4c, 0x2a, 0x05, 0xcf, 0x75, 0x55, 0xed, 0x5a, 0xae, 0xc4, 0xc1]

  lemma SerialisedIs(s: seq<u32>)
    requires |s| == 8
    ensures Serialise(s) == ToLE(4, s[0]) + ToLE(4, s[1]) + ToLE(4, s[2]) + ToLE(4, s[3])
                            + ToLE(4, s[4]) + ToLE(4, s[5]) + ToLE(4, s[6]) + ToLE(4, s[7])
  {
    hide ToLE, Serialise;
    var low, high := [s[0], s[1], s[2], s[3]], [s[4], s[5], s[6], s[7]];
    Entries8(s);
    assert low + high == [s[0], s[1], s[2], s[3], s[4], s[5], s[6], s[7]];
    SerialiseAppend(low, high);
    SerialiseFour(s[0], s[1], s[2], s[3]);
    SerialiseFour(s[4], s[5], s[6], s[7]);
  }

  lemma PlainBytes1()
    ensures ToLE(4, 0x8b4e_f356) == [0x56, 0xf3, 0x4e, 0x8b]
    ensures ToLE(4, 0x907e_5596) == [0x96, 0x55, 0x7e, 0x90]
    ensures ToLE(4, 0x524b_f2c1) == [0xc1, 0xf2, 0x4b, 0x52]
    ensures ToLE(4, 0x519d_c8d0) == [0xd0, 0xc8, 0x9d, 0x51]
  {
    hide ToLE;
    StoreBytes(0x8b4e_f356);
    StoreBytes(0x907e_5596);
    StoreBytes(0x524b_f2c1);
    StoreBytes(0x519d_c8d0);
  }

  lemma PlainBytes2()
    ensures ToLE(4, 0x1bcf_6a08) == [0x08, 0x6a, 0xcf, 0x1b]
    ensures ToLE(4, 0xcf34_f600) == [0x00, 0xf6, 0x34, 0xcf]
    ensures ToLE(4, 0x3392_de1d) == [0x1d, 0xde, 0x92, 0x33]
    ensures ToLE(4, 0x3eaa_eab8) == [0xb8, 0xea, 0xaa, 0x3e]
  {
    hide ToLE;
    StoreBytes(0x1bcf_6a08);
    StoreBytes(0xcf34_f600);
    StoreBytes(0x3392_de1d);
    StoreBytes(0x3eaa_eab8);
  }

  lemma KeyedBytes1()
    ensures ToLE(4, 0x21cb_751e) == [0x1e, 0x75, 0xcb, 0x21]
    ensures ToLE(4, 0x0289_09c6) == [0xc6, 0x09, 0x89, 0x02]
    ensures ToLE(4, 0xa7f1_7503) == [0x03, 0x75, 0xf1, 0xa7]
    ensures ToLE(4, 0x9f83_42a2) == [0xa2, 0x42, 0x83, 0x9f]
  {
    hide ToLE;
    StoreBytes(0x21cb_751e);
    StoreBytes(0x0289_09c6);
    StoreBytes(0xa7f1_7503);
    StoreBytes(0x9f83_42a2);
  }

  lemma KeyedBytes2()
    ensures ToLE(4, 0x9768_0b0b) == [0x0b, 0x0b, 0x68, 0x97]
    ensures ToLE(4, 0x052a_4c3a) == [0x3a, 0x4c, 0x2a, 0x05]
    ensures ToLE(4, 0xed55_75cf) == [0xcf, 0x75, 0x55, 0xed]
    ensures ToLE(4, 0xc1c4_ae5a) == [0x5a, 0xae, 0xc4, 0xc1]
  {
    hide ToLE;
    StoreBytes(0x9768_0b0b);
    StoreBytes(0x052a_4c3a);
    StoreBytes(0xed55_75cf);
    StoreBytes(0xc1c4_ae5a);
  }

  lemma PlainOutput()
    ensures Output(PLAIN_END, 32) == PLAIN_DIGEST
  {
    hide ToLE, Serialise;
    PlainBytes1();
    PlainBytes2();
    SerialisedIs(PLAIN_END);
  }

  lemma KeyedOutput()
    ensures Output(KEYED_END, 32) == KEYED_DIGEST
  {
    hide ToLE, Serialise;
    KeyedBytes1();
    KeyedBytes2();
    SerialisedIs(KEYED_END);
  }

  lemma PlainCompress()
    ensures Compress(PLAIN_START, Counting(64), 64, true) == PLAIN_END
  {
    hide MessageWords, WorkVector, Rounds, Fold;
    CountingWords();
    PlainVector();
    PlainRounds();
    PlainFold();
  }

  lemma KeyCompress()
    ensures Compress(KEY_START, Counting(32) + Zeros(32), 64, false) == KEY_CHAIN
  {
    hide MessageWords, WorkVector, Rounds, Fold;
    KeyWords();
    KeyVector();
    KeyRounds();
    KeyFold();
  }

  lemma LastCompress()
    ensures Compress(KEY_CHAIN, Counting(36) + Zeros(28), 100, true) == KEYED_END
  {
    hide MessageWords, WorkVector, Rounds, Fold;
    TailWords();
    LastVector();
    LastRounds();
    LastFold();
  }

  /** The parameters of the MACs: 16 bytes long, under a key of 32 or of 16 bytes. */
  lemma MacParameters()
    ensures ParameterWord(16, 32) == 0x6b08_c677
  {
    SmallWords();
    hide Word;
  }

  lemma CookieParameters()
    ensures ParameterWord(16, 16) == 0x6b08_f677
  {
    SmallWords();
    hide Word;
  }

  /** The digest of the bytes 00 to 3f: one block whose words all differ. */
  lemma PlainVector64()
    ensures Hash(32, [], Counting(64)) == PLAIN_DIGEST
  {
    hide Compress, Output, Counting, Start;
    Starts();
    PlainCompress();
    PlainOutput();
    var data := KeyBlock([]) + Counting(64);
    assert data == Counting(64) && data[64 * 0..] + Zeros(64 * 0 + 64 - |data|) == data;
    ChainNothing(Start(32, 0), data);
  }

  /** The keyed digest of the bytes 00 to 23 under the key 00 to 1f: two blocks, the last one not
      full. */
  lemma KeyedVector36()
    ensures Hash(32, Counting(32), Counting(36)) == KEYED_DIGEST
  {
    hide Compress, Output, Counting, Start;
    Starts();
    KeyCompress();
    LastCompress();
    KeyedOutput();
    var data := KeyBlock(Counting(32)) + Counting(36);
    assert data[64 * 0..64 * 1] == Counting(32) + Zeros(32);
    assert data[64 * 1..] + Zeros(64 * 1 + 64 - |data|) == Counting(36) + Zeros(28);
    ChainNothing(Start(32, 32), data);
    ChainStep(Start(32, 32), data, 0);
  }
}
