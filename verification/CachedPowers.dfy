/**
 * The table of cached powers of ten behind the double printer, and the proof that every row is
 * the correctly rounded 64-bit significand of its power of ten.
 *
 * The rows are checked in runs of two to nine. Each run carries the exact power of ten, or of two for
 * the negative half, from one row to the next by multiplications with literals, so that the solver
 * never sees a product of two large unknowns.
 */
module CachedPowers {
  import opened Powers
  import opened Words

  /** `f * 2^e`, the power `10^k` rounded to 64 significant bits. */
  datatype Row = Row(f: nat, e: int, k: int)

  /** `f` is within half a unit of `10^k / 2^e`, and is normalized. */
  ghost predicate Accurate(r: Row) {
    && TWO_63 <= r.f < TWO_64
    && 2.0 * R10(r.k) <= 2.0 * (r.f as real * R2(r.e)) + R2(r.e)
    && 2.0 * (r.f as real * R2(r.e)) <= 2.0 * R10(r.k) + R2(r.e)
  }

  /** Accurate rows eight decades and 26 or 27 binary places apart, the first at `2^e * 10^k`. */
  ghost predicate ValidRows(t: seq<Row>, e: int, k: int) {
    && (|t| > 0 ==> t[0].e == e)
    && (forall i :: 0 <= i < |t| ==> Accurate(t[i]) && t[i].k == k + 8 * i)
    && (forall i, j :: 0 <= i < |t| - 1 && j == i + 1 ==> t[i].e + 26 <= t[j].e <= t[i].e + 27)
  }

  /** What the digit generator relies on: 87 accurate rows from 10^-348 to 10^340. */
  ghost predicate ValidTable(t: seq<Row>) {
    |t| == 87 && ValidRows(t, -1220, -348) && t[86].e == 1066
  }

  const ROWS_0: seq<Row> := [
    Row(0xfa8f_d5a0_081c_0288, -1220, -348),
    Row(0xbaae_e17f_a23e_bf76, -1193, -340),
    Row(0x8b16_fb20_3055_ac76, -1166, -332),
    Row(0xcf42_894a_5dce_35ea, -1140, -324),
    Row(0x9a6b_b0aa_5565_3b2d, -1113, -316),
    Row(0xe61a_cf03_3d1a_45df, -1087, -308),
    Row(0xab70_fe17_c79a_c6ca, -1060, -300),
    Row(0xff77_b1fc_bebc_dc4f, -1034, -292)
  ]

  const ROWS_8: seq<Row> := [
    Row(0xbe56_91ef_416b_d60c, -1007, -284),
    Row(0x8dd0_1fad_907f_fc3c, -980, -276),
    Row(0xd351_5c28_3155_9a83, -954, -268),
    Row(0x9d71_ac8f_ada6_c9b5, -927, -260),
    Row(0xea9c_2277_23ee_8bcb, -901, -252),
    Row(0xaecc_4991_4078_536d, -874, -244),
    Row(0x823c_1279_5db6_ce57, -847, -236),
    Row(0xc210_9436_4dfb_5637, -821, -228)
  ]

  const ROWS_16: seq<Row> := [
    Row(0x9096_ea6f_3848_984f, -794, -220),
    Row(0xd774_85cb_2582_3ac7, -768, -212),
    Row(0xa086_cfcd_97bf_97f4, -741, -204),
    Row(0xef34_0a98_172a_ace5, -715, -196),
    Row(0xb238_67fb_2a35_b28e, -688, -188),
    Row(0x84c8_d4df_d2c6_3f3b, -661, -180),
    Row(0xc5dd_4427_1ad3_cdba, -635, -172),
    Row(0x936b_9fce_bb25_c996, -608, -164)
  ]

  const ROWS_24: seq<Row> := [
    Row(0xdbac_6c24_7d62_a584, -582, -156),
    Row(0xa3ab_6658_0d5f_daf6, -555, -148),
    Row(0xf3e2_f893_dec3_f126, -529, -140),
    Row(0xb5b5_ada8_aaff_80b8, -502, -132),
    Row(0x8762_5f05_6c7c_4a8b, -475, -124),
    Row(0xc9bc_ff60_34c1_3053, -449, -116),
    Row(0x964e_858c_91ba_2655, -422, -108),
    Row(0xdff9_7724_7029_7ebd, -396, -100)
  ]

  const ROWS_32: seq<Row> := [
    Row(0xa6df_bd9f_b8e5_b88f, -369, -92),
    Row(0xf8a9_5fcf_8874_7d94, -343, -84),
    Row(0xb944_7093_8fa8_9bcf, -316, -76),
    Row(0x8a08_f0f8_bf0f_156b, -289, -68),
    Row(0xcdb0_2555_6531_31b6, -263, -60),
    Row(0x993f_e2c6_d07b_7fac, -236, -52),
    Row(0xe45c_10c4_2a2b_3b06, -210, -44),
    Row(0xaa24_2499_6973_92d3, -183, -36)
  ]

  const ROWS_40: seq<Row> := [
    Row(0xfd87_b5f2_8300_ca0e, -157, -28),
    Row(0xbce5_0864_9211_1aeb, -130, -20),
    Row(0x8cbc_cc09_6f50_88cc, -103, -12),
    Row(0xd1b7_1758_e219_652c, -77, -4)
  ]

  const ROWS_44: seq<Row> := [
    Row(0x9c40_0000_0000_0000, -50, 4),
    Row(0xe8d4_a510_0000_0000, -24, 12)
  ]

  const ROWS_46: seq<Row> := [
    Row(0xad78_ebc5_ac62_0000, 3, 20),
    Row(0x813f_3978_f894_0984, 30, 28),
    Row(0xc097_ce7b_c907_15b3, 56, 36),
    Row(0x8f7e_32ce_7bea_5c70, 83, 44),
    Row(0xd5d2_38a4_abe9_8068, 109, 52),
    Row(0x9f4f_2726_179a_2245, 136, 60),
    Row(0xed63_a231_d4c4_fb27, 162, 68),
    Row(0xb0de_6538_8cc8_ada8, 189, 76)
  ]

  const ROWS_54: seq<Row> := [
    Row(0x83c7_088e_1aab_65db, 216, 84),
    Row(0xc45d_1df9_4271_1d9a, 242, 92),
    Row(0x924d_692c_a61b_e758, 269, 100),
    Row(0xda01_ee64_1a70_8dea, 295, 108),
    Row(0xa26d_a399_9aef_774a, 322, 116),
    Row(0xf209_787b_b47d_6b85, 348, 124),
    Row(0xb454_e4a1_79dd_1877, 375, 132),
    Row(0x865b_8692_5b9b_c5c2, 402, 140)
  ]

  const ROWS_62: seq<Row> := [
    Row(0xc835_53c5_c896_5d3d, 428, 148),
    Row(0x952a_b45c_fa97_a0b3, 455, 156),
    Row(0xde46_9fbd_99a0_5fe3, 481, 164),
    Row(0xa59b_c234_db39_8c25, 508, 172),
    Row(0xf6c6_9a72_a398_9f5c, 534, 180),
    Row(0xb7dc_bf53_54e9_bece, 561, 188),
    Row(0x88fc_f317_f222_41e2, 588, 196),
    Row(0xcc20_ce9b_d35c_78a5, 614, 204)
  ]

  const ROWS_70: seq<Row> := [
    Row(0x9816_5af3_7b21_53df, 641, 212),
    Row(0xe2a0_b5dc_971f_303a, 667, 220),
    Row(0xa8d9_d153_5ce3_b396, 694, 228),
    Row(0xfb9b_7cd9_a4a7_443c, 720, 236),
    Row(0xbb76_4c4c_a7a4_4410, 747, 244),
    Row(0x8bab_8eef_b640_9c1a, 774, 252),
    Row(0xd01f_ef10_a657_842c, 800, 260),
    Row(0x9b10_a4e5_e991_3129, 827, 268)
  ]

  const ROWS_78: seq<Row> := [
    Row(0xe710_9bfb_a19c_0c9d, 853, 276),
    Row(0xac28_20d9_623b_f429, 880, 284),
    Row(0x8044_4b5e_7aa7_cf85, 907, 292),
    Row(0xbf21_e440_03ac_dd2d, 933, 300),
    Row(0x8e67_9c2f_5e44_ff8f, 960, 308),
    Row(0xd433_179d_9c8c_b841, 986, 316),
    Row(0x9e19_db92_b4e3_1ba9, 1013, 324),
    Row(0xeb96_bf6e_badf_77d9, 1039, 332),
    Row(0xaf87_023b_9bf0_ee6b, 1066, 340)
  ]

  const LOW: seq<Row> := ROWS_0 + ROWS_8 + ROWS_16 + ROWS_24 + ROWS_32 + ROWS_40
  const HIGH: seq<Row> := ROWS_44 + ROWS_46 + ROWS_54 + ROWS_62 + ROWS_70 + ROWS_78
  const KPOW10: seq<Row> := LOW + HIGH

  // ---- the rows against exact integer powers ---------------------------------------------------

  /** `a` is within `u / 2` of `b`. */
  predicate Near(a: int, b: int, u: int) {
    2 * a <= 2 * b + u && 2 * b <= 2 * a + u
  }

  /**
   * `ten` and `two` grow as powers of ten and of two do. The row checks know nothing else about
   * them, which keeps each check a comparison of linear terms.
   */
  ghost predicate Powerlike(ten: nat -> nat, two: nat -> nat) {
    && ten(4) == 10000 && ten(20) == 100000000000000000000
    && two(3) == 8 && two(77) == 0x2000_0000_0000_0000_0000
    && (forall k, j :: j == k + 8 ==> ten(j) == 100000000 * ten(k))
    && (forall e, j :: j == e + 26 ==> two(j) == 67108864 * two(e))
    && (forall e, j :: j == e + 27 ==> two(j) == 134217728 * two(e))
  }

  /** For `e >= 0`, `f * 2^e` is within half of `2^e` of `10^k`. */
  ghost predicate NearPositive(r: Row, ten: nat -> nat, two: nat -> nat) {
    r.e >= 0 && r.k >= 0 && Near(r.f * two(r.e), ten(r.k), two(r.e))
  }

  /** For `k < 0`, `f * 10^-k` is within half of `10^-k` of `2^-e`. */
  ghost predicate NearNegative(r: Row, ten: nat -> nat, two: nat -> nat) {
    r.e < 0 && r.k < 0 && Near(r.f * ten(-r.k), two(-r.e), ten(-r.k))
  }

  /** The two rows with `k >= 0` and `e < 0` are exact. */
  ghost predicate NearExact(r: Row, ten: nat -> nat, two: nat -> nat) {
    r.e < 0 && r.k >= 0 && r.f == ten(r.k) * two(-r.e)
  }

  ghost predicate NearRow(r: Row, ten: nat -> nat, two: nat -> nat) {
    NearPositive(r, ten, two) || NearNegative(r, ten, two) || NearExact(r, ten, two)
  }

  /** Normalized rows, spaced as `ValidRows` demands. */
  ghost predicate Spaced(t: seq<Row>, e: int, k: int) {
    && |t| > 0 && t[0].e == e
    && (forall i :: 0 <= i < |t| ==> TWO_63 <= t[i].f < TWO_64 && t[i].k == k + 8 * i)
    && (forall i, j :: 0 <= i < |t| - 1 && j == i + 1 ==> t[i].e + 26 <= t[j].e <= t[i].e + 27)
  }

  ghost predicate AllNear(t: seq<Row>, ten: nat -> nat, two: nat -> nat) {
    forall i :: 0 <= i < |t| ==> NearRow(t[i], ten, two)
  }

  lemma Rows46(ten: nat -> nat, two: nat -> nat)
    requires Powerlike(ten, two)
    ensures forall i :: 0 <= i < 8 ==> NearPositive(ROWS_46[i], ten, two)
    ensures ten(84) == 1000000000000000000000000000000000000000000000000000000000000000000000000000000000000
    ensures two(216) == 0x1000000000000000000000000000000000000000000000000000000
  {
    var t := ROWS_46;
    assert Near(0xad78_ebc5_ac62_0000 * two(3), ten(20), two(3));
    assert Near(0x813f_3978_f894_0984 * two(30), ten(28), two(30));
    assert Near(0xc097_ce7b_c907_15b3 * two(56), ten(36), two(56));
    assert Near(0x8f7e_32ce_7bea_5c70 * two(83), ten(44), two(83));
    assert Near(0xd5d2_38a4_abe9_8068 * two(109), ten(52), two(109));
    assert Near(0x9f4f_2726_179a_2245 * two(136), ten(60), two(136));
    assert Near(0xed63_a231_d4c4_fb27 * two(162), ten(68), two(162));
    assert Near(0xb0de_6538_8cc8_ada8 * two(189), ten(76), two(189));
  }

  lemma Rows54(ten: nat -> nat, two: nat -> nat)
    requires Powerlike(ten, two)
    ensures forall i :: 0 <= i < 8 ==> NearPositive(ROWS_54[i], ten, two)
    ensures ten(148) == 10000000000000000000000000000000000000000000000000000000000000000000000000000000000000000000000000000000000000000000000000000000000000000000000000000
    ensures two(428) == 0x100000000000000000000000000000000000000000000000000000000000000000000000000000000000000000000000000000000000
  {
    Rows46(ten, two);
    var t := ROWS_54;
    assert Near(0x83c7_088e_1aab_65db * two(216), ten(84), two(216));
    assert Near(0xc45d_1df9_4271_1d9a * two(242), ten(92), two(242));
    assert Near(0x924d_692c_a61b_e758 * two(269), ten(100), two(269));
    assert Near(0xda01_ee64_1a70_8dea * two(295), ten(108), two(295));
    assert Near(0xa26d_a399_9aef_774a * two(322), ten(116), two(322));
    assert Near(0xf209_787b_b47d_6b85 * two(348), ten(124), two(348));
    assert Near(0xb454_e4a1_79dd_1877 * two(375), ten(132), two(375));
    assert Near(0x865b_8692_5b9b_c5c2 * two(402), ten(140), two(402));
  }

  lemma Rows62(ten: nat -> nat, two: nat -> nat)
    requires Powerlike(ten, two)
    ensures forall i :: 0 <= i < 8 ==> NearPositive(ROWS_62[i], ten, two)
    ensures ten(212) == 100000000000000000000000000000000000000000000000000000000000000000000000000000000000000000000000000000000000000000000000000000000000000000000000000000000000000000000000000000000000000000000000000000000000000000000
    ensures two(641) == 0x20000000000000000000000000000000000000000000000000000000000000000000000000000000000000000000000000000000000000000000000000000000000000000000000000000000000000000
  {
    Rows54(ten, two);
    var t := ROWS_62;
    assert Near(0xc835_53c5_c896_5d3d * two(428), ten(148), two(428));
    assert Near(0x952a_b45c_fa97_a0b3 * two(455), ten(156), two(455));
    assert Near(0xde46_9fbd_99a0_5fe3 * two(481), ten(164), two(481));
    assert Near(0xa59b_c234_db39_8c25 * two(508), ten(172), two(508));
    assert Near(0xf6c6_9a72_a398_9f5c * two(534), ten(180), two(534));
    assert Near(0xb7dc_bf53_54e9_bece * two(561), ten(188), two(561));
    assert Near(0x88fc_f317_f222_41e2 * two(588), ten(196), two(588));
    assert Near(0xcc20_ce9b_d35c_78a5 * two(614), ten(204), two(614));
  }

  lemma Rows70(ten: nat -> nat, two: nat -> nat)
    requires Powerlike(ten, two)
    ensures forall i :: 0 <= i < 8 ==> NearPositive(ROWS_70[i], ten, two)
    ensures ten(276) == 1000000000000000000000000000000000000000000000000000000000000000000000000000000000000000000000000000000000000000000000000000000000000000000000000000000000000000000000000000000000000000000000000000000000000000000000000000000000000000000000000000000000000000000000000000000000000
    ensures two(853) == 0x2000000000000000000000000000000000000000000000000000000000000000000000000000000000000000000000000000000000000000000000000000000000000000000000000000000000000000000000000000000000000000000000000000000000000000000000
  {
    Rows62(ten, two);
    var t := ROWS_70;
    assert Near(0x9816_5af3_7b21_53df * two(641), ten(212), two(641));
    assert Near(0xe2a0_b5dc_971f_303a * two(667), ten(220), two(667));
    assert Near(0xa8d9_d153_5ce3_b396 * two(694), ten(228), two(694));
    assert Near(0xfb9b_7cd9_a4a7_443c * two(720), ten(236), two(720));
    assert Near(0xbb76_4c4c_a7a4_4410 * two(747), ten(244), two(747));
    assert Near(0x8bab_8eef_b640_9c1a * two(774), ten(252), two(774));
    assert Near(0xd01f_ef10_a657_842c * two(800), ten(260), two(800));
    assert Near(0x9b10_a4e5_e991_3129 * two(827), ten(268), two(827));
  }

  lemma Rows78(ten: nat -> nat, two: nat -> nat)
    requires Powerlike(ten, two)
    ensures forall i :: 0 <= i < 9 ==> NearPositive(ROWS_78[i], ten, two)
  {
    Rows70(ten, two);
    var t := ROWS_78;
    assert Near(0xe710_9bfb_a19c_0c9d * two(853), ten(276), two(853));
    assert Near(0xac28_20d9_623b_f429 * two(880), ten(284), two(880));
    assert Near(0x8044_4b5e_7aa7_cf85 * two(907), ten(292), two(907));
    assert Near(0xbf21_e440_03ac_dd2d * two(933), ten(300), two(933));
    assert Near(0x8e67_9c2f_5e44_ff8f * two(960), ten(308), two(960));
    assert Near(0xd433_179d_9c8c_b841 * two(986), ten(316), two(986));
    assert Near(0x9e19_db92_b4e3_1ba9 * two(1013), ten(324), two(1013));
    assert Near(0xeb96_bf6e_badf_77d9 * two(1039), ten(332), two(1039));
    assert Near(0xaf87_023b_9bf0_ee6b * two(1066), ten(340), two(1066));
  }

  lemma Rows40(ten: nat -> nat, two: nat -> nat)
    requires Powerlike(ten, two)
    ensures forall i :: 0 <= i < 4 ==> NearNegative(ROWS_40[i], ten, two)
    ensures ten(36) == 1000000000000000000000000000000000000
    ensures two(183) == 0x8000000000000000000000000000000000000000000000
  {
    var t := ROWS_40;
    assert Near(0xd1b7_1758_e219_652c * ten(4), two(77), ten(4));
    assert Near(0x8cbc_cc09_6f50_88cc * ten(12), two(103), ten(12));
    assert Near(0xbce5_0864_9211_1aeb * ten(20), two(130), ten(20));
    assert Near(0xfd87_b5f2_8300_ca0e * ten(28), two(157), ten(28));
  }

  lemma Rows32(ten: nat -> nat, two: nat -> nat)
    requires Powerlike(ten, two)
    ensures forall i :: 0 <= i < 8 ==> NearNegative(ROWS_32[i], ten, two)
    ensures ten(100) == 10000000000000000000000000000000000000000000000000000000000000000000000000000000000000000000000000000
    ensures two(396) == 0x1000000000000000000000000000000000000000000000000000000000000000000000000000000000000000000000000000
  {
    Rows40(ten, two);
    var t := ROWS_32;
    assert Near(0xaa24_2499_6973_92d3 * ten(36), two(183), ten(36));
    assert Near(0xe45c_10c4_2a2b_3b06 * ten(44), two(210), ten(44));
    assert Near(0x993f_e2c6_d07b_7fac * ten(52), two(236), ten(52));
    assert Near(0xcdb0_2555_6531_31b6 * ten(60), two(263), ten(60));
    assert Near(0x8a08_f0f8_bf0f_156b * ten(68), two(289), ten(68));
    assert Near(0xb944_7093_8fa8_9bcf * ten(76), two(316), ten(76));
    assert Near(0xf8a9_5fcf_8874_7d94 * ten(84), two(343), ten(84));
    assert Near(0xa6df_bd9f_b8e5_b88f * ten(92), two(369), ten(92));
  }

  lemma Rows24(ten: nat -> nat, two: nat -> nat)
    requires Powerlike(ten, two)
    ensures forall i :: 0 <= i < 8 ==> NearNegative(ROWS_24[i], ten, two)
    ensures ten(164) == 100000000000000000000000000000000000000000000000000000000000000000000000000000000000000000000000000000000000000000000000000000000000000000000000000000000000000000000
    ensures two(608) == 0x100000000000000000000000000000000000000000000000000000000000000000000000000000000000000000000000000000000000000000000000000000000000000000000000000000000
  {
    Rows32(ten, two);
    var t := ROWS_24;
    assert Near(0xdff9_7724_7029_7ebd * ten(100), two(396), ten(100));
    assert Near(0x964e_858c_91ba_2655 * ten(108), two(422), ten(108));
    assert Near(0xc9bc_ff60_34c1_3053 * ten(116), two(449), ten(116));
    assert Near(0x8762_5f05_6c7c_4a8b * ten(124), two(475), ten(124));
    assert Near(0xb5b5_ada8_aaff_80b8 * ten(132), two(502), ten(132));
    assert Near(0xf3e2_f893_dec3_f126 * ten(140), two(529), ten(140));
    assert Near(0xa3ab_6658_0d5f_daf6 * ten(148), two(555), ten(148));
    assert Near(0xdbac_6c24_7d62_a584 * ten(156), two(582), ten(156));
  }

  lemma Rows16(ten: nat -> nat, two: nat -> nat)
    requires Powerlike(ten, two)
    ensures forall i :: 0 <= i < 8 ==> NearNegative(ROWS_16[i], ten, two)
    ensures ten(228) == 1000000000000000000000000000000000000000000000000000000000000000000000000000000000000000000000000000000000000000000000000000000000000000000000000000000000000000000000000000000000000000000000000000000000000000000000000000000000000
    ensures two(821) == 0x20000000000000000000000000000000000000000000000000000000000000000000000000000000000000000000000000000000000000000000000000000000000000000000000000000000000000000000000000000000000000000000000000000000000000
  {
    Rows24(ten, two);
    var t := ROWS_16;
    assert Near(0x936b_9fce_bb25_c996 * ten(164), two(608), ten(164));
    assert Near(0xc5dd_4427_1ad3_cdba * ten(172), two(635), ten(172));
    assert Near(0x84c8_d4df_d2c6_3f3b * ten(180), two(661), ten(180));
    assert Near(0xb238_67fb_2a35_b28e * ten(188), two(688), ten(188));
    assert Near(0xef34_0a98_172a_ace5 * ten(196), two(715), ten(196));
    assert Near(0xa086_cfcd_97bf_97f4 * ten(204), two(741), ten(204));
    assert Near(0xd774_85cb_2582_3ac7 * ten(212), two(768), ten(212));
    assert Near(0x9096_ea6f_3848_984f * ten(220), two(794), ten(220));
  }

  lemma Rows8(ten: nat -> nat, two: nat -> nat)
    requires Powerlike(ten, two)
    ensures forall i :: 0 <= i < 8 ==> NearNegative(ROWS_8[i], ten, two)
    ensures ten(292) == 10000000000000000000000000000000000000000000000000000000000000000000000000000000000000000000000000000000000000000000000000000000000000000000000000000000000000000000000000000000000000000000000000000000000000000000000000000000000000000000000000000000000000000000000000000000000000000000000000000
    ensures two(1034) == 0x4000000000000000000000000000000000000000000000000000000000000000000000000000000000000000000000000000000000000000000000000000000000000000000000000000000000000000000000000000000000000000000000000000000000000000000000000000000000000000000000000000000000000000000
  {
    Rows16(ten, two);
    var t := ROWS_8;
    assert Near(0xc210_9436_4dfb_5637 * ten(228), two(821), ten(228));
    assert Near(0x823c_1279_5db6_ce57 * ten(236), two(847), ten(236));
    assert Near(0xaecc_4991_4078_536d * ten(244), two(874), ten(244));
    assert Near(0xea9c_2277_23ee_8bcb * ten(252), two(901), ten(252));
    assert Near(0x9d71_ac8f_ada6_c9b5 * ten(260), two(927), ten(260));
    assert Near(0xd351_5c28_3155_9a83 * ten(268), two(954), ten(268));
    assert Near(0x8dd0_1fad_907f_fc3c * ten(276), two(980), ten(276));
    assert Near(0xbe56_91ef_416b_d60c * ten(284), two(1007), ten(284));
  }

  lemma Rows0(ten: nat -> nat, two: nat -> nat)
    requires Powerlike(ten, two)
    ensures forall i :: 0 <= i < 8 ==> NearNegative(ROWS_0[i], ten, two)
  {
    Rows8(ten, two);
    var t := ROWS_0;
    assert Near(0xff77_b1fc_bebc_dc4f * ten(292), two(1034), ten(292));
    assert Near(0xab70_fe17_c79a_c6ca * ten(300), two(1060), ten(300));
    assert Near(0xe61a_cf03_3d1a_45df * ten(308), two(1087), ten(308));
    assert Near(0x9a6b_b0aa_5565_3b2d * ten(316), two(1113), ten(316));
    assert Near(0xcf42_894a_5dce_35ea * ten(324), two(1140), ten(324));
    assert Near(0x8b16_fb20_3055_ac76 * ten(332), two(1166), ten(332));
    assert Near(0xbaae_e17f_a23e_bf76 * ten(340), two(1193), ten(340));
    assert Near(0xfa8f_d5a0_081c_0288 * ten(348), two(1220), ten(348));
  }

  // ---- from integer checks to the accuracy of the whole table ----------------------------------

  lemma PositiveAccurate(r: Row, ten: nat -> nat, two: nat -> nat)
    requires TWO_63 <= r.f < TWO_64 && NearPositive(r, ten, two)
    requires ten(r.k) == Pow10(r.k) && two(r.e) == Pow2(r.e)
    ensures Accurate(r)
  {
    R10Nat(r.k);
    R2Nat(r.e);
    PositiveReal(r.f, ten(r.k), two(r.e), R10(r.k), R2(r.e));
  }

  lemma PositiveReal(f: nat, ten: nat, two: nat, x: real, y: real)
    requires Near(f * two, ten, two) && x == ten as real && y == two as real
    ensures 2.0 * x <= 2.0 * (f as real * y) + y && 2.0 * (f as real * y) <= 2.0 * x + y
  {
    assert (f * two) as real == f as real * y;
  }

  lemma NegativeAccurate(r: Row, ten: nat -> nat, two: nat -> nat)
    requires TWO_63 <= r.f < TWO_64 && NearNegative(r, ten, two)
    requires ten(-r.k) == Pow10(-r.k) && two(-r.e) == Pow2(-r.e)
    ensures Accurate(r)
  {
    R10Inverse(-r.k, R10(r.k), ten(-r.k));
    R2Inverse(-r.e, R2(r.e), two(-r.e));
    NegativeReal(r.f, ten(-r.k), two(-r.e), R10(r.k), R2(r.e));
  }

  lemma NegativeReal(f: nat, ten: nat, two: nat, x: real, y: real)
    requires Near(f * ten, two, ten)
    requires x > 0.0 && y > 0.0 && x * ten as real == 1.0 && y * two as real == 1.0
    ensures 2.0 * x <= 2.0 * (f as real * y) + y && 2.0 * (f as real * y) <= 2.0 * x + y
  {
    assert (f * ten) as real == f as real * ten as real;
    Invert(f as real, ten as real, two as real, x, y);
  }

  lemma Invert(f: real, ten: real, two: real, tenth: real, half: real)
    requires tenth > 0.0 && half > 0.0
    requires tenth * ten == 1.0 && half * two == 1.0
    requires 2.0 * (f * ten) <= 2.0 * two + ten && 2.0 * two <= 2.0 * (f * ten) + ten
    ensures 2.0 * tenth <= 2.0 * (f * half) + half && 2.0 * (f * half) <= 2.0 * tenth + half
  {
    var c := tenth * half;
    assert c * two == tenth;
    assert c * ten == half;
    assert c * (f * ten) == f * half;
    RMulLessEq(c, 2.0 * (f * ten), 2.0 * two + ten);
    RMulLessEq(c, 2.0 * two, 2.0 * (f * ten) + ten);
  }

  lemma ExactAccurate(r: Row, ten: nat -> nat, two: nat -> nat)
    requires TWO_63 <= r.f < TWO_64 && NearExact(r, ten, two)
    requires ten(r.k) == Pow10(r.k) && two(-r.e) == Pow2(-r.e)
    ensures Accurate(r)
  {
    R10Nat(r.k);
    R2Inverse(-r.e, R2(r.e), two(-r.e));
    ExactReal(r.f, ten(r.k), two(-r.e), R10(r.k), R2(r.e));
  }

  lemma ExactReal(f: nat, ten: nat, two: nat, x: real, y: real)
    requires f == ten * two && x == ten as real && y > 0.0 && y * two as real == 1.0
    ensures 2.0 * x <= 2.0 * (f as real * y) + y && 2.0 * (f as real * y) <= 2.0 * x + y
  {
    assert f as real == ten as real * two as real;
    assert f as real * y == ten as real * (y * two as real);
  }

  lemma TenSteps(k: nat)
    ensures Pow10(k + 8) == 100000000 * Pow10(k)
  {
    assert Pow10(k + 2) == 100 * Pow10(k);
    assert Pow10(k + 4) == 100 * Pow10(k + 2);
    assert Pow10(k + 6) == 100 * Pow10(k + 4);
  }

  lemma TwoSteps(e: nat)
    ensures Pow2(e + 26) == 67108864 * Pow2(e)
    ensures Pow2(e + 27) == 134217728 * Pow2(e)
  {
    Pow2Add(26, e);
    assert Pow2(26) == 67108864 by { Pow2Add(13, 13); assert Pow2(13) == 8192; }
  }

  lemma FirstPowers()
    ensures Pow10(4) == 10000 && Pow10(20) == 100000000000000000000
    ensures Pow2(3) == 8 && Pow2(77) == 0x2000_0000_0000_0000_0000
  {
    TenSteps(4);
    TenSteps(12);
    TwoSteps(23);
    TwoSteps(50);
    assert Pow2(23) == 8388608 by { Pow2Add(13, 10); assert Pow2(13) == 8192; }
  }

  lemma PowersArePowerlike(ten: nat -> nat, two: nat -> nat)
    requires forall n :: ten(n) == Pow10(n)
    requires forall n :: two(n) == Pow2(n)
    ensures Powerlike(ten, two)
  {
    FirstPowers();
    Decades(ten);
    Doublings(two);
  }

  lemma Decades(ten: nat -> nat)
    requires forall n :: ten(n) == Pow10(n)
    ensures forall k, j :: j == k + 8 ==> ten(j) == 100000000 * ten(k)
  {
    forall k: nat, j: nat | j == k + 8 ensures ten(j) == 100000000 * ten(k) { TenSteps(k); }
  }

  lemma Doublings(two: nat -> nat)
    requires forall n :: two(n) == Pow2(n)
    ensures forall e, j :: j == e + 26 ==> two(j) == 67108864 * two(e)
    ensures forall e, j :: j == e + 27 ==> two(j) == 134217728 * two(e)
  {
    forall e: nat, j: nat | j == e + 26 ensures two(j) == 67108864 * two(e) { TwoSteps(e); }
    forall e: nat, j: nat | j == e + 27 ensures two(j) == 134217728 * two(e) { TwoSteps(e); }
  }

  lemma Rows44(ten: nat -> nat, two: nat -> nat)
    requires Powerlike(ten, two)
    ensures forall i :: 0 <= i < 2 ==> NearExact(ROWS_44[i], ten, two)
  {
    assert ten(4) == 10000;
    assert ten(12) == 1000000000000;
    assert two(77) == 134217728 * two(50);
    assert two(50) == 67108864 * two(24);
    assert two(50) == 1125899906842624;
    assert two(24) == 16777216;
  }

  /** `Spaced`, with its length and last binary exponent, so that runs can be joined. */
  ghost predicate Run(t: seq<Row>, n: nat, first: int, last: int, k: int) {
    |t| == n && Spaced(t, first, k) && t[n - 1].e == last
  }

  lemma Join(s: seq<Row>, t: seq<Row>, m: nat, n: nat, a: int, b: int, c: int, d: int, k: int)
    requires Run(s, m, a, b, k) && Run(t, n, c, d, k + 8 * m) && b + 26 <= c <= b + 27
    ensures Run(s + t, m + n, a, d, k)
  {
  }

  lemma Run0()
    ensures Run(ROWS_0, 8, -1220, -1034, -348)
  {
  }

  lemma Run8()
    ensures Run(ROWS_8, 8, -1007, -821, -284)
  {
  }

  lemma Run16()
    ensures Run(ROWS_16, 8, -794, -608, -220)
  {
  }

  lemma Run24()
    ensures Run(ROWS_24, 8, -582, -396, -156)
  {
  }

  lemma Run32()
    ensures Run(ROWS_32, 8, -369, -183, -92)
  {
  }

  lemma Run40()
    ensures Run(ROWS_40, 4, -157, -77, -28)
  {
  }

  lemma Run44()
    ensures Run(ROWS_44, 2, -50, -24, 4)
  {
  }

  lemma Run46()
    ensures Run(ROWS_46, 8, 3, 189, 20)
  {
  }

  lemma Run54()
    ensures Run(ROWS_54, 8, 216, 402, 84)
  {
  }

  lemma Run62()
    ensures Run(ROWS_62, 8, 428, 614, 148)
  {
  }

  lemma Run70()
    ensures Run(ROWS_70, 8, 641, 827, 212)
  {
  }

  lemma Run78()
    ensures Run(ROWS_78, 9, 853, 1066, 276)
  {
  }

  lemma RunLow()
    ensures Run(LOW, 44, -1220, -77, -348)
  {
    Run0();
    Run8();
    Join(ROWS_0, ROWS_8, 8, 8, -1220, -1034, -1007, -821, -348);
    Run16();
    Join(ROWS_0 + ROWS_8, ROWS_16, 16, 8, -1220, -821, -794, -608, -348);
    Run24();
    Join(ROWS_0 + ROWS_8 + ROWS_16, ROWS_24, 24, 8, -1220, -608, -582, -396, -348);
    Run32();
    Join(ROWS_0 + ROWS_8 + ROWS_16 + ROWS_24, ROWS_32, 32, 8, -1220, -396, -369, -183, -348);
    Run40();
    Join(ROWS_0 + ROWS_8 + ROWS_16 + ROWS_24 + ROWS_32, ROWS_40, 40, 4, -1220, -183, -157, -77, -348);
  }

  lemma RunHigh()
    ensures Run(HIGH, 43, -50, 1066, 4)
  {
    Run44();
    Run46();
    Join(ROWS_44, ROWS_46, 2, 8, -50, -24, 3, 189, 4);
    Run54();
    Join(ROWS_44 + ROWS_46, ROWS_54, 10, 8, -50, 189, 216, 402, 4);
    Run62();
    Join(ROWS_44 + ROWS_46 + ROWS_54, ROWS_62, 18, 8, -50, 402, 428, 614, 4);
    Run70();
    Join(ROWS_44 + ROWS_46 + ROWS_54 + ROWS_62, ROWS_70, 26, 8, -50, 614, 641, 827, 4);
    Run78();
    Join(ROWS_44 + ROWS_46 + ROWS_54 + ROWS_62 + ROWS_70, ROWS_78, 34, 9, -50, 827, 853, 1066, 4);
  }

  lemma LowNear(ten: nat -> nat, two: nat -> nat)
    requires Powerlike(ten, two)
    ensures AllNear(LOW, ten, two)
  {
    Rows0(ten, two);
    Rows8(ten, two);
    Rows16(ten, two);
    Rows24(ten, two);
    Rows32(ten, two);
    Rows40(ten, two);
  }

  lemma HighNear(ten: nat -> nat, two: nat -> nat)
    requires Powerlike(ten, two)
    ensures AllNear(HIGH, ten, two)
  {
    Rows44(ten, two);
    Rows46(ten, two);
    Rows54(ten, two);
    Rows62(ten, two);
    Rows70(ten, two);
    Rows78(ten, two);
  }

  lemma NearIsAccurate(t: seq<Row>, e: int, k: int, ten: nat -> nat, two: nat -> nat)
    requires Spaced(t, e, k) && AllNear(t, ten, two)
    requires forall n :: ten(n) == Pow10(n)
    requires forall n :: two(n) == Pow2(n)
    ensures ValidRows(t, e, k)
  {
    forall i | 0 <= i < |t|
      ensures Accurate(t[i])
    {
      if NearPositive(t[i], ten, two) {
        PositiveAccurate(t[i], ten, two);
      } else if NearNegative(t[i], ten, two) {
        NegativeAccurate(t[i], ten, two);
      } else {
        ExactAccurate(t[i], ten, two);
      }
    }
  }

  /** Every row of the table is the correctly rounded power of ten it stands for. */
  lemma TableIsValid()
    ensures ValidTable(KPOW10)
  {
    var ten := (n: nat) => Pow10(n);
    var two := (n: nat) => Pow2(n);
    PowersArePowerlike(ten, two);
    RunLow();
    RunHigh();
    Join(LOW, HIGH, 44, 43, -1220, -77, -50, 1066, -348);
    LowNear(ten, two);
    HighNear(ten, two);
    JoinNear(LOW, HIGH, ten, two);
    NearIsAccurate(KPOW10, -1220, -348, ten, two);
  }

  lemma JoinNear(s: seq<Row>, t: seq<Row>, ten: nat -> nat, two: nat -> nat)
    requires AllNear(s, ten, two) && AllNear(t, ten, two)
    ensures AllNear(s + t, ten, two)
  {
  }
}
