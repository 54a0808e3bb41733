/** -7 is not a cube modulo secp256k1's P, so the curve of internal/btc/secp256k1.go has no point with
    y = 0 and Decompress succeeds on every key that OnCurve accepts. */
module NonCube {
  import opened Radix
  import opened Base58
  import opened ModArith
  import opened Secp256k1

  // ----------------------------------------------------------- what a cube root would mean

  /** (b*b*b)^e is b^(3e). */
  lemma {:induction false} ModPowCube(b: nat, e: nat, m: nat)
    requires m > 0
    ensures ModPow(b * b * b, e, m) == ModPow(b, 3 * e, m)
    decreases e
  {
    if e > 0 {
      ModPowCube(b, e - 1, m);
      var p := ModPow(b, 3 * e - 3, m);
      ModPowStep(b * b * b, e - 1, m);
      ModPowAdd(b, 3, 3 * e - 3, m);
      ModPowThree(b, m);
      CongRefl(p, m);
      CongMul(ModPow(b, 3, m), b * b * b, p, p, m);
      CongTrans(ModPow(b, 3 * e, m), ModPow(b, 3, m) * p, (b * b * b) * p, m);
      CongSym(ModPow(b, 3 * e, m), (b * b * b) * p, m);
      CongTrans(ModPow(b * b * b, e, m), (b * b * b) * p, ModPow(b, 3 * e, m), m);
      SmallCong(ModPow(b * b * b, e, m), ModPow(b, 3 * e, m), m);
    }
  }

  lemma CubeSquared(c: nat, m: nat)
    requires m > 0 && Cong(0, c + 7, m)
    ensures Cong(c * c, 49, m)
  {
    var k :| 0 == c + 7 + m * k;
    assert c * c == 49 + m * (k * (14 + m * k)) by {
      assert c == -7 - m * k;
      assert (-7 - m * k) * (-7 - m * k) == 49 + m * (k * (14 + m * k));
    }
  }

  lemma RhsReduced(x: nat, p: Modulus)
    ensures Rhs(x % p, p) == Rhs(x, p)
  {
    CongMod(x, p);
    ModPowBase(x % p, x, 3, p);
  }

  lemma ZeroRhs(p: Modulus)
    ensures Rhs(0, p) == 7
  {
    ZeroPow(3, p);
    DivMod(p, 0, 7);
  }

  /** If x^3 + 7 were zero, 7 to the third of p - 1 would be 1. */
  lemma {:induction false} RootMakesCube(x: nat, h: nat, p: Modulus)
    requires PrimeField(p) && p - 1 == 6 * h && x < p && Rhs(x, p) == 0
    ensures ModPow(7, 2 * h, p) == 1
  {
    var c := x * x * x;
    RhsIsCubic(x, p);
    CubeSquared(c, p);
    ModPowBase(c * c, 49, h, p);
    ModPowSquare(7, h, p);
    ModPowSquare(c, h, p);
    ModPowCube(x, 2 * h, p);
    ZeroRhs(p);
    assert Fermat(x, p);
  }

  // ------------------------------------------- 7 to the third of P - 1, two bits at a time

  lemma {:induction false} Squared(b: nat, e: nat, s: nat, m: nat)
    requires m > 0 && Cong(ModPow(b, e, m), s, m)
    ensures Cong(ModPow(b, 2 * e, m), s * s, m)
  {
    ModPowAdd(b, e, e, m);
    CongMul(ModPow(b, e, m), s, ModPow(b, e, m), s, m);
    CongTrans(ModPow(b, 2 * e, m), ModPow(b, e, m) * ModPow(b, e, m), s * s, m);
  }

  lemma SmallPowers(m: nat)
    requires m > 343
    ensures ModPow(7, 0, m) == 1 && ModPow(7, 1, m) == 7 && ModPow(7, 2, m) == 49 && ModPow(7, 3, m) == 343
  {
    assert ModPow(7, 0, m) == 1;
    assert ModPow(7, 1, m) == 7;
    assert ModPow(7, 2, m) == 49;
  }

  lemma {:induction false} Fourth(b: nat, e: nat, r: nat, m: nat)
    requires m > 0 && ModPow(b, e, m) == r
    ensures Cong(ModPow(b, 4 * e, m), r * r * r * r, m)
  {
    CongRefl(r, m);
    Squared(b, e, r, m);
    Squared(b, 2 * e, r * r, m);
    FourTimes(r);
  }

  lemma FourTimes(r: nat)
    ensures (r * r) * (r * r) == r * r * r * r
  {}

  lemma Times(whole: nat, part: nat, q: nat, f: nat, s: nat, m: nat)
    requires m > 0 && whole < m && Cong(whole, part * f, m) && Cong(part, q, m) && (q * f) % m == s
    ensures whole == s
  {
    CongRefl(f, m);
    CongMul(part, q, f, f, m);
    CongTrans(whole, part * f, q * f, m);
    CongMod(q * f, m);
    CongTrans(whole, q * f, s, m);
    SmallCong(whole, s, m);
  }

  /** One base-4 digit of the exponent. */
  lemma {:induction false} Digit(e: nat, d: nat, f: nat, m: nat, q: nat, s: nat)
    requires m > 0 && Cong(ModPow(7, e, m), q, m) && ModPow(7, d, m) == f && (q * f) % m == s
    ensures ModPow(7, e + d, m) == s
  {
    ModPowAdd(7, e, d, m);
    Times(ModPow(7, e + d, m), ModPow(7, e, m), q, f, s, m);
  }

  function SmallPower(d: nat): nat {
    if d == 0 then 1 else if d == 1 then 7 else if d == 2 then 49 else 343
  }

  predicate ClimbAt(pw: nat -> nat, m: nat, e: nat, d: nat)
    requires m > 0
  {
    d < 4 ==> pw(4 * e + d) == (pw(e) * pw(e) * pw(e) * pw(e) * SmallPower(d)) % m
  }

  /** pw follows the powers of 7 modulo m, one base-4 digit of the exponent at a time. */
  ghost predicate Climbs(pw: nat -> nat, m: nat)
    requires m > 0
  {
    forall e, d :: ClimbAt(pw, m, e, d)
  }

  function PowersOfSeven(m: nat): nat -> nat
    requires m > 0
  {
    e => ModPow(7, e, m)
  }

  lemma {:induction false} PowersClimb(m: nat)
    requires m > 343
    ensures Climbs(PowersOfSeven(m), m)
  {
    SmallPowers(m);
    var pw := PowersOfSeven(m);
    forall e: nat, d: nat ensures ClimbAt(pw, m, e, d) {
      if d < 4 {
        var r := ModPow(7, e, m);
        Fourth(7, e, r, m);
        Digit(4 * e, d, SmallPower(d), m, r * r * r * r, (r * r * r * r * SmallPower(d)) % m);
      }
    }
  }

  lemma One(pw: nat -> nat, e: nat, d: nat, m: nat, r: nat, s: nat)
    requires m > 0 && Climbs(pw, m) && d < 4 && pw(e) == r && (r * r * r * r * SmallPower(d)) % m == s
    ensures pw(4 * e + d) == s
  {
    assert ClimbAt(pw, m, e, d);
  }

  /** Four base-4 digits of the exponent. */
  lemma {:induction false} Four(pw: nat -> nat, e: nat, m: nat, d1: nat, d2: nat, d3: nat, d4: nat, r0: nat, r1: nat, r2: nat, r3: nat, r4: nat)
    requires m > 0 && Climbs(pw, m) && pw(e) == r0 && d1 < 4 && d2 < 4 && d3 < 4 && d4 < 4
    requires (r0 * r0 * r0 * r0 * SmallPower(d1)) % m == r1 && (r1 * r1 * r1 * r1 * SmallPower(d2)) % m == r2
    requires (r2 * r2 * r2 * r2 * SmallPower(d3)) % m == r3 && (r3 * r3 * r3 * r3 * SmallPower(d4)) % m == r4
    ensures pw(256 * e + 64 * d1 + 16 * d2 + 4 * d3 + d4) == r4
  {
    One(pw, e, d1, m, r0, r1);
    One(pw, 4 * e + d1, d2, m, r1, r2);
    One(pw, 16 * e + 4 * d1 + d2, d3, m, r2, r3);
    One(pw, 64 * e + 16 * d1 + 4 * d2 + d3, d4, m, r3, r4);
  }

  lemma Part1(pw: nat -> nat, e: nat)
    requires Climbs(pw, 0xffffffff_ffffffff_ffffffff_ffffffff_ffffffff_ffffffff_fffffffe_fffffc2f) && pw(e) == 1
    ensures pw(0x1_0000 * e + 0x5555) == 0x815d8e87_92a267b2_15223551_4d1a8edc_4cd3819c_6f632798_a9d23347_8216e958
  {
    Four(pw, e, 0xffffffff_ffffffff_ffffffff_ffffffff_ffffffff_ffffffff_fffffffe_fffffc2f, 1, 1, 1, 1,
         1,
         7,
         16807,
         0x07c05a81_0b72a027,
         0x000062b6_8801ec04_8e694ca0_24f38176_9f554139_2b34be48_39cdca18_1dc19a27);
    Four(pw, 256 * e + 85, 0xffffffff_ffffffff_ffffffff_ffffffff_ffffffff_ffffffff_fffffffe_fffffc2f, 1, 1, 1, 1,
         0x000062b6_8801ec04_8e694ca0_24f38176_9f554139_2b34be48_39cdca18_1dc19a27,
         0xe632dbdb_6b593859_5651734a_39636410_f570c2ba_aaf10dc8_a79ca291_638942de,
         0xd634a40a_16ea79f1_93e7cfb7_2385bfd8_bf65abdb_16bbdc3c_c0ab3fb7_24d97e62,
         0x8e861b45_5c77ebd7_7fa70ebd_0721ad41_e2cb5738_fcec9095_64a80f60_cf27c333,
         0x815d8e87_92a267b2_15223551_4d1a8edc_4cd3819c_6f632798_a9d23347_8216e958);
  }

  lemma Part2(pw: nat -> nat, e: nat)
    requires Climbs(pw, 0xffffffff_ffffffff_ffffffff_ffffffff_ffffffff_ffffffff_fffffffe_fffffc2f) && pw(e) == 0x815d8e87_92a267b2_15223551_4d1a8edc_4cd3819c_6f632798_a9d23347_8216e958
    ensures pw(0x1_0000 * e + 0x5555) == 0x816425ed_dac85a24_49034986_4a71aba2_f24bcc56_a86bbdfc_b1eb2595_a5ad5cfa
  {
    Four(pw, e, 0xffffffff_ffffffff_ffffffff_ffffffff_ffffffff_ffffffff_fffffffe_fffffc2f, 1, 1, 1, 1,
         0x815d8e87_92a267b2_15223551_4d1a8edc_4cd3819c_6f632798_a9d23347_8216e958,
         0x49b286a0_c2441747_9f96b03d_44490a42_d3e573dc_e851bbe9_84e2443b_32386e57,
         0x49dc6607_49534f6b_0d8d15d2_2d4e8415_100e1229_6d24d603_f63cec8f_6c6eb6e8,
         0x62af9022_446ed3d5_f05e16b3_45eaca71_60c561cd_0b95c781_d910ae50_dd6a5a82,
         0x0bcc01d0_aa309ee4_ad078bca_e56e37c7_501cf517_6d293963_a092add0_bc5254e6);
    Four(pw, 256 * e + 85, 0xffffffff_ffffffff_ffffffff_ffffffff_ffffffff_ffffffff_fffffffe_fffffc2f, 1, 1, 1, 1,
         0x0bcc01d0_aa309ee4_ad078bca_e56e37c7_501cf517_6d293963_a092add0_bc5254e6,
         0x259f9419_2fdf5204_ceeb7836_ffe41cef_1c38a8a5_89bb96d1_e6708fad_8b7069d4,
         0xc707ace6_cc7544a6_9163dcf7_ac486557_b3fadbd9_c6cc1116_76dc9437_bd4b2b15,
         0xe3755aa0_0ef35f4b_7fa858bf_32670734_f4d275e7_dd86fcda_ccc0a37e_15df5e00,
         0x816425ed_dac85a24_49034986_4a71aba2_f24bcc56_a86bbdfc_b1eb2595_a5ad5cfa);
  }

  lemma Part3(pw: nat -> nat, e: nat)
    requires Climbs(pw, 0xffffffff_ffffffff_ffffffff_ffffffff_ffffffff_ffffffff_fffffffe_fffffc2f) && pw(e) == 0x816425ed_dac85a24_49034986_4a71aba2_f24bcc56_a86bbdfc_b1eb2595_a5ad5cfa
    ensures pw(0x1_0000 * e + 0x5555) == 0xd8c76e77_747fd4c2_58fc3831_f566b0ab_ddcc7475_5d32460f_d160cbd9_4fbc3826
  {
    Four(pw, e, 0xffffffff_ffffffff_ffffffff_ffffffff_ffffffff_ffffffff_fffffffe_fffffc2f, 1, 1, 1, 1,
         0x816425ed_dac85a24_49034986_4a71aba2_f24bcc56_a86bbdfc_b1eb2595_a5ad5cfa,
         0xe13f308b_dc6b1927_2db56846_fdf5cb88_74c1dd26_ec4b80a5_38ca0d12_1ce09ba9,
         0x40bcf6f3_1a22bd33_8756da0e_4b60f0d0_25bd1be7_719a246e_ab629c77_da9cfd49,
         0x533a16bc_6138f1f1_1baa10c5_c4c2f5e6_61f8a18a_6a05e58d_b235f8ef_b861c081,
         0xf79df852_3ee141a1_637e0154_20851638_292bd978_6ad15789_1e0802a8_1c47b89f);
    Four(pw, 256 * e + 85, 0xffffffff_ffffffff_ffffffff_ffffffff_ffffffff_ffffffff_fffffffe_fffffc2f, 1, 1, 1, 1,
         0xf79df852_3ee141a1_637e0154_20851638_292bd978_6ad15789_1e0802a8_1c47b89f,
         0x3b0d2c9d_b8af8e0e_320125b4_985cd888_fd3235e4_95b1555f_e98bb2b1_5cb07332,
         0x899bdf8a_0ffd8f82_16fc717a_ce0bd31b_43a59033_bda35d94_1d356b9a_a6de1e3c,
         0x49c83a27_c34c8635_552cf039_a1a4a49e_b94ad2b9_165472c0_ea272d63_9db1616d,
         0xd8c76e77_747fd4c2_58fc3831_f566b0ab_ddcc7475_5d32460f_d160cbd9_4fbc3826);
  }

  lemma Part4(pw: nat -> nat, e: nat)
    requires Climbs(pw, 0xffffffff_ffffffff_ffffffff_ffffffff_ffffffff_ffffffff_fffffffe_fffffc2f) && pw(e) == 0xd8c76e77_747fd4c2_58fc3831_f566b0ab_ddcc7475_5d32460f_d160cbd9_4fbc3826
    ensures pw(0x1_0000 * e + 0x5555) == 0x1860a66d_9be02659_a854a0e1_4ef7179c_5f958ef9_95ec9dc1_cba2f7cc_50f31085
  {
    Four(pw, e, 0xffffffff_ffffffff_ffffffff_ffffffff_ffffffff_ffffffff_fffffffe_fffffc2f, 1, 1, 1, 1,
         0xd8c76e77_747fd4c2_58fc3831_f566b0ab_ddcc7475_5d32460f_d160cbd9_4fbc3826,
         0xceb709ef_1d014056_579850b7_7fb13998_df199c43_00c0125e_28a6ef3f_4f67c243,
         0xffe39606_ec8c9eed_e826b066_086a6bf1_a2d7b66f_49f46d04_9f347859_aa647a02,
         0x8349cf2c_fb630c80_1085cdf8_3e03f5df_140c5312_3fb51fc3_0b364c45_2b9d1158,
         0xa9eb201d_77fa7a04_77ee0bd2_8b2713cb_a3d9d3f5_6840b5e2_eea4ae4c_6b7b2c6d);
    Four(pw, 256 * e + 85, 0xffffffff_ffffffff_ffffffff_ffffffff_ffffffff_ffffffff_fffffffe_fffffc2f, 1, 1, 1, 1,
         0xa9eb201d_77fa7a04_77ee0bd2_8b2713cb_a3d9d3f5_6840b5e2_eea4ae4c_6b7b2c6d,
         0xad92abf8_4456e3f8_8a33ea48_74b0ae9e_4f02eaf2_4e5b8b5b_ca8d8ff4_75efdb42,
         0xdbfe51c7_0aaa1f79_19ef2099_e0e9f0b8_6dfae3b5_4985a0ed_1b52e824_dd91186e,
         0xd7df68df_2eccdac6_1c8789bb_a4e89360_985eaff5_09172cc6_745abf18_08a18e5c,
         0x1860a66d_9be02659_a854a0e1_4ef7179c_5f958ef9_95ec9dc1_cba2f7cc_50f31085);
  }

  lemma Part5(pw: nat -> nat, e: nat)
    requires Climbs(pw, 0xffffffff_ffffffff_ffffffff_ffffffff_ffffffff_ffffffff_fffffffe_fffffc2f) && pw(e) == 0x1860a66d_9be02659_a854a0e1_4ef7179c_5f958ef9_95ec9dc1_cba2f7cc_50f31085
    ensures pw(0x1_0000 * e + 0x5555) == 0x86650153_59f79d60_929d8d71_7712a5bc_0b007d78_3f454bc2_bffff5e7_ffe90b78
  {
    Four(pw, e, 0xffffffff_ffffffff_ffffffff_ffffffff_ffffffff_ffffffff_fffffffe_fffffc2f, 1, 1, 1, 1,
         0x1860a66d_9be02659_a854a0e1_4ef7179c_5f958ef9_95ec9dc1_cba2f7cc_50f31085,
         0x683adbbb_a76b1bbb_662e8716_051953d8_3f6fd356_a211a707_718073f0_25bff854,
         0xe781bfd3_139d90d6_b4c26a0c_cc032356_378d70e8_9f401b03_2e4396ad_26d1fc3b,
         0xdfdded23_a9a7e7f1_9adc3852_521cd465_212e3957_c5ed6b16_ad37418b_80dabc9d,
         0xd079b41f_315315ef_9cab48ea_74039e35_6334e2cc_442d0d65_d97d226a_ec463187);
    Four(pw, 256 * e + 85, 0xffffffff_ffffffff_ffffffff_ffffffff_ffffffff_ffffffff_fffffffe_fffffc2f, 1, 1, 1, 1,
         0xd079b41f_315315ef_9cab48ea_74039e35_6334e2cc_442d0d65_d97d226a_ec463187,
         0xc3baa9e5_f7a98b78_ea17ab3a_4e36e572_9e70666d_9c9b99f0_ae9a6a90_de0ae3bc,
         0x0bd99604_f15f388a_890eead8_39b86289_f0795027_e4416336_16242b6b_1b288bf1,
         0x0a03e05c_aa6b8829_936ef41d_36dd1417_c2fb3b94_b8d74e97_444256b0_d6596676,
         0x86650153_59f79d60_929d8d71_7712a5bc_0b007d78_3f454bc2_bffff5e7_ffe90b78);
  }

  lemma Part6(pw: nat -> nat, e: nat)
    requires Climbs(pw, 0xffffffff_ffffffff_ffffffff_ffffffff_ffffffff_ffffffff_fffffffe_fffffc2f) && pw(e) == 0x86650153_59f79d60_929d8d71_7712a5bc_0b007d78_3f454bc2_bffff5e7_ffe90b78
    ensures pw(0x1_0000 * e + 0x5555) == 0x01bd1d2e_39ac7e78_ff091254_ef591171_68604498_69522954_ffa3208e_77d42411
  {
    Four(pw, e, 0xffffffff_ffffffff_ffffffff_ffffffff_ffffffff_ffffffff_fffffffe_fffffc2f, 1, 1, 1, 1,
         0x86650153_59f79d60_929d8d71_7712a5bc_0b007d78_3f454bc2_bffff5e7_ffe90b78,
         0x8a67f385_a5022e59_ddee0443_07792c47_0d7ee66b_e845b94e_f55ecbc7_019e8879,
         0x234ce69c_2449e560_3c37199f_828ac739_16f31c12_f185957a_c7d1e233_1a55e83f,
         0xc901811e_0783547a_bbe1ecdb_cb0bc7d4_f91bd549_706a2550_893afc98_ff737748,
         0x38ebf3b8_a6aa6b36_5c04b86a_a0891686_c8cb5f0a_56d87a85_f3a2009f_7bd1a0f0);
    Four(pw, 256 * e + 85, 0xffffffff_ffffffff_ffffffff_ffffffff_ffffffff_ffffffff_fffffffe_fffffc2f, 1, 1, 1, 1,
         0x38ebf3b8_a6aa6b36_5c04b86a_a0891686_c8cb5f0a_56d87a85_f3a2009f_7bd1a0f0,
         0x62374445_34136c1a_51a53dd0_b93760b0_4e4dc872_d165f8e8_087566fb_0176aed5,
         0xe06d2a7d_7382027a_9914c9b2_42588976_910f3090_07a51b09_cdd1cbe6_dad57e8b,
         0xff5b79f6_0480e024_6231bae4_3ec8fa51_487776d0_f45e556f_f07e77b9_2d910c3e,
         0x01bd1d2e_39ac7e78_ff091254_ef591171_68604498_69522954_ffa3208e_77d42411);
  }

  lemma Part7(pw: nat -> nat, e: nat)
    requires Climbs(pw, 0xffffffff_ffffffff_ffffffff_ffffffff_ffffffff_ffffffff_fffffffe_fffffc2f) && pw(e) == 0x01bd1d2e_39ac7e78_ff091254_ef591171_68604498_69522954_ffa3208e_77d42411
    ensures pw(0x1_0000 * e + 0x5555) == 0x9b4583be_2d369b7b_5357f421_434f13c9_b4b9454d_41d24ecf_bd282afb_7249be7a
  {
    Four(pw, e, 0xffffffff_ffffffff_ffffffff_ffffffff_ffffffff_ffffffff_fffffffe_fffffc2f, 1, 1, 1, 1,
         0x01bd1d2e_39ac7e78_ff091254_ef591171_68604498_69522954_ffa3208e_77d42411,
         0xe73e831e_847f2d70_44b83aed_ff6f87f4_e826079e_9c4a6710_03d40185_d3d42d50,
         0xc528bb30_664adbc5_5cc52a0e_daf35153_7b7ec45b_3f99dd9b_b6cb36e4_1b4fc358,
         0xb5d79f06_8a8df3d5_0e78ddf9_1d18057c_7eec87a0_c2cda57c_4b06da99_5406a755,
         0xa53f8a0a_9bd2794c_bf0c4152_4153c32e_cdd14d29_68cf51b0_8fd08c86_16962037);
    Four(pw, 256 * e + 85, 0xffffffff_ffffffff_ffffffff_ffffffff_ffffffff_ffffffff_fffffffe_fffffc2f, 1, 1, 1, 1,
         0xa53f8a0a_9bd2794c_bf0c4152_4153c32e_cdd14d29_68cf51b0_8fd08c86_16962037,
         0x7701b50c_4e442adf_08de5c14_97db8de2_6a49d708_82acf9b8_c4740ebb_eab171f5,
         0xeaf28da0_ddc9ea8a_dda7e507_ace529d7_ba100cb9_76f73c01_05538efe_9021d481,
         0xc990baed_dbb3d35f_a32a7378_8a0b781e_4723e595_c81dbde9_0b10a0e3_1bb8dd7e,
         0x9b4583be_2d369b7b_5357f421_434f13c9_b4b9454d_41d24ecf_bd282afb_7249be7a);
  }

  lemma Part8(pw: nat -> nat, e: nat)
    requires Climbs(pw, 0xffffffff_ffffffff_ffffffff_ffffffff_ffffffff_ffffffff_fffffffe_fffffc2f) && pw(e) == 0x9b4583be_2d369b7b_5357f421_434f13c9_b4b9454d_41d24ecf_bd282afb_7249be7a
    ensures pw(0x1_0000 * e + 0x5555) == 0xf0d02bb7_beb7ea24_4b8d53fb_fcbae29c_64f532e9_743576b3_b8abcaa6_c434a944
  {
    Four(pw, e, 0xffffffff_ffffffff_ffffffff_ffffffff_ffffffff_ffffffff_fffffffe_fffffc2f, 1, 1, 1, 1,
         0x9b4583be_2d369b7b_5357f421_434f13c9_b4b9454d_41d24ecf_bd282afb_7249be7a,
         0xc361b3c9_d720fe9c_8a7fd309_fb9db9c3_46fc7008_51f5e48d_6315886f_d833dd6c,
         0x2c008232_64bdfa66_21106179_5c38014e_97a47b73_be847c09_f1fb8710_a2ca70b0,
         0x8abc518d_9e320741_3a06f78c_88e97b24_3bea514f_16c32cee_e2ce223c_1f3720d1,
         0xaf55af86_5749b70e_66105312_a15d64ab_c08a88a5_430554b7_f752dad2_64338e5d);
    Four(pw, 256 * e + 85, 0xffffffff_ffffffff_ffffffff_ffffffff_ffffffff_ffffffff_fffffffe_fffffc2f, 1, 1, 1, 1,
         0xaf55af86_5749b70e_66105312_a15d64ab_c08a88a5_430554b7_f752dad2_64338e5d,
         0xa49414f3_5118566e_055541dd_c53be235_eac2c2b9_77974532_abe260c7_a97c3f1e,
         0x892d6ecb_1618f0f6_96d61102_d801fcdc_89ccfc5c_096b7429_ecce720c_b1099135,
         0x75a0d81a_cd51b845_6da8e0db_15c09931_c3e9a6c8_c1d5bdc9_484be189_77378d25,
         0xf0d02bb7_beb7ea24_4b8d53fb_fcbae29c_64f532e9_743576b3_b8abcaa6_c434a944);
  }

  lemma Part9(pw: nat -> nat, e: nat)
    requires Climbs(pw, 0xffffffff_ffffffff_ffffffff_ffffffff_ffffffff_ffffffff_fffffffe_fffffc2f) && pw(e) == 0xf0d02bb7_beb7ea24_4b8d53fb_fcbae29c_64f532e9_743576b3_b8abcaa6_c434a944
    ensures pw(0x1_0000 * e + 0x5555) == 0x3e41a813_24a0a563_2696021d_2ccbd298_9c64c198_0b08c6c9_b78e06a6_3dd8759f
  {
    Four(pw, e, 0xffffffff_ffffffff_ffffffff_ffffffff_ffffffff_ffffffff_fffffffe_fffffc2f, 1, 1, 1, 1,
         0xf0d02bb7_beb7ea24_4b8d53fb_fcbae29c_64f532e9_743576b3_b8abcaa6_c434a944,
         0x57acd9d5_04af4eda_58c6c04e_5285fc5a_91247db9_fd847854_6c8c22b0_2dccf5dd,
         0x93ea0fdd_1711a362_2848bcba_b4ab7f36_014561d5_5850f8d5_cd2f0a71_1724733f,
         0x0f75699f_21738e53_c17479e9_8a6760f1_fc8e626d_fa643508_ce63c11f_e77096a8,
         0x2e538b7b_c7f2ad7b_93e36422_c7147862_03f5d0d1_a1a8ba21_4a78d74d_4dabc973);
    Four(pw, 256 * e + 85, 0xffffffff_ffffffff_ffffffff_ffffffff_ffffffff_ffffffff_fffffffe_fffffc2f, 1, 1, 1, 1,
         0x2e538b7b_c7f2ad7b_93e36422_c7147862_03f5d0d1_a1a8ba21_4a78d74d_4dabc973,
         0x213404ab_14b78088_cc8720a6_119a8559_19841e11_1baa7d05_31a3e3d8_b0e581fa,
         0xf065c1f1_4aff7a76_e57a6dc5_19898bca_fdf6b754_db4f1b70_d61042c8_88c46745,
         0x9cadcfc1_cff51700_93f30940_2da28098_91e8a91c_fd2f72de_2b72416b_c1b6ae77,
         0x3e41a813_24a0a563_2696021d_2ccbd298_9c64c198_0b08c6c9_b78e06a6_3dd8759f);
  }

  lemma Part10(pw: nat -> nat, e: nat)
    requires Climbs(pw, 0xffffffff_ffffffff_ffffffff_ffffffff_ffffffff_ffffffff_fffffffe_fffffc2f) && pw(e) == 0x3e41a813_24a0a563_2696021d_2ccbd298_9c64c198_0b08c6c9_b78e06a6_3dd8759f
    ensures pw(0x1_0000 * e + 0x5555) == 0x1c7021d4_60599526_7a972d06_6876cea8_42154ef9_d25fddaa_07a42a2f_b3ceb4e8
  {
    Four(pw, e, 0xffffffff_ffffffff_ffffffff_ffffffff_ffffffff_ffffffff_fffffffe_fffffc2f, 1, 1, 1, 1,
         0x3e41a813_24a0a563_2696021d_2ccbd298_9c64c198_0b08c6c9_b78e06a6_3dd8759f,
         0x9dba5e3e_b09e6c5b_63efc96e_7afb95c6_c955bee6_0f8380ba_45cea822_6cdb35fa,
         0x59638dc2_4e8b6043_e2ef808f_e059478f_657647cf_4c8a79cd_8a7b1340_e2838ca6,
         0x795bf012_e44eb6ee_3b9b5d21_45231be4_5e165c38_d5e9523e_892bd43e_209b637d,
         0x15233d40_b71b4e48_344b315c_b83e26ea_29f1f38a_f6df60bc_5fee51a0_762df5ae);
    Four(pw, 256 * e + 85, 0xffffffff_ffffffff_ffffffff_ffffffff_ffffffff_ffffffff_fffffffe_fffffc2f, 1, 1, 1, 1,
         0x15233d40_b71b4e48_344b315c_b83e26ea_29f1f38a_f6df60bc_5fee51a0_762df5ae,
         0x44eec50b_8c72b25f_0c37a396_449cfdae_021c6811_966b4568_1d1b0cb5_efea8167,
         0x9cab6980_5c4cf01c_41e77478_3f4c59a9_2618066f_be68de76_5be639c6_25082c15,
         0xb800ee02_30ebc351_2ed83c66_64f623e6_b76556a1_4857d9ac_401d4377_abdf6f25,
         0x1c7021d4_60599526_7a972d06_6876cea8_42154ef9_d25fddaa_07a42a2f_b3ceb4e8);
  }

  lemma Part11(pw: nat -> nat, e: nat)
    requires Climbs(pw, 0xffffffff_ffffffff_ffffffff_ffffffff_ffffffff_ffffffff_fffffffe_fffffc2f) && pw(e) == 0x1c7021d4_60599526_7a972d06_6876cea8_42154ef9_d25fddaa_07a42a2f_b3ceb4e8
    ensures pw(0x1_0000 * e + 0x5555) == 0x270cbfbf_7524501c_cef5d72f_771be92f_74af5796_994ac626_3e9692b3_967633f8
  {
    Four(pw, e, 0xffffffff_ffffffff_ffffffff_ffffffff_ffffffff_ffffffff_fffffffe_fffffc2f, 1, 1, 1, 1,
         0x1c7021d4_60599526_7a972d06_6876cea8_42154ef9_d25fddaa_07a42a2f_b3ceb4e8,
         0x3ca5505d_e245df84_6ada5f81_f1a245b6_cc1f8d83_91127d0b_ddf2a09b_b21fa9c8,
         0xaef16ed1_e84f350b_8a22ebca_d3306587_f80f93a0_610d608d_e7a018c8_761564bb,
         0x16e08393_fd6373c0_073e75fc_56f0f79c_446fd7bb_859667dd_8c149b5e_cd111fec,
         0x2295c9ca_fdfd81dc_3793375e_785bd670_bf36526d_a45f09e8_0715bab9_8133571b);
    Four(pw, 256 * e + 85, 0xffffffff_ffffffff_ffffffff_ffffffff_ffffffff_ffffffff_fffffffe_fffffc2f, 1, 1, 1, 1,
         0x2295c9ca_fdfd81dc_3793375e_785bd670_bf36526d_a45f09e8_0715bab9_8133571b,
         0x44ce2bb8_f3fa681d_20af8be7_38419726_30e0be63_ec3a5b01_6b93a43d_0fd63959,
         0x0fe3d01f_fbe2de43_d6dcfdf8_e99154a3_680863e1_b96d9746_fb18c86d_0383725e,
         0x927c96db_4ca7f498_82a80cf3_8812e671_19b8b221_bcba93d3_92c95204_2f846dcd,
         0x270cbfbf_7524501c_cef5d72f_771be92f_74af5796_994ac626_3e9692b3_967633f8);
  }

  lemma Part12(pw: nat -> nat, e: nat)
    requires Climbs(pw, 0xffffffff_ffffffff_ffffffff_ffffffff_ffffffff_ffffffff_fffffffe_fffffc2f) && pw(e) == 0x270cbfbf_7524501c_cef5d72f_771be92f_74af5796_994ac626_3e9692b3_967633f8
    ensures pw(0x1_0000 * e + 0x5555) == 0xdb8a2017_99d4423a_681d9018_d14ed2e3_00a50dd4_83a003b9_4335026d_9ce053cb
  {
    Four(pw, e, 0xffffffff_ffffffff_ffffffff_ffffffff_ffffffff_ffffffff_fffffffe_fffffc2f, 1, 1, 1, 1,
         0x270cbfbf_7524501c_cef5d72f_771be92f_74af5796_994ac626_3e9692b3_967633f8,
         0x7001889b_a1297fde_1741fa17_ef931e06_ebf15191_0195df1a_e90ee791_da5abc7e,
         0x865075f7_68f04345_cd1abd77_bb0f9eba_782f3c95_1c31b973_8f383772_e3063245,
         0x4c302062_90eff650_d01d7410_786d4729_c31e6b6b_e1ac0d70_b3c41b7b_f35e8999,
         0x42d943e5_6610e967_109a4dee_0cbf2647_49923646_89b262f7_f22c1dff_42888eae);
    Four(pw, 256 * e + 85, 0xffffffff_ffffffff_ffffffff_ffffffff_ffffffff_ffffffff_fffffffe_fffffc2f, 1, 1, 1, 1,
         0x42d943e5_6610e967_109a4dee_0cbf2647_49923646_89b262f7_f22c1dff_42888eae,
         0xef518ada_1f7eda4b_b7e86ca6_2c935305_ce54b9d6_4dfa5b48_57d6e502_5f5e2b22,
         0x4c6abc72_0ddcd5b3_0156df81_f4a21357_692521f3_83938216_33df6e9e_e7266081,
         0x4ad9b183_30d97be9_cc3b6163_c6ab00ed_bdce215a_89be8f46_19408087_1a88edc8,
         0xdb8a2017_99d4423a_681d9018_d14ed2e3_00a50dd4_83a003b9_4335026d_9ce053cb);
  }

  lemma Part13(pw: nat -> nat, e: nat)
    requires Climbs(pw, 0xffffffff_ffffffff_ffffffff_ffffffff_ffffffff_ffffffff_fffffffe_fffffc2f) && pw(e) == 0xdb8a2017_99d4423a_681d9018_d14ed2e3_00a50dd4_83a003b9_4335026d_9ce053cb
    ensures pw(0x1_0000 * e + 0x5555) == 0xfa7e1a30_e83a9ea9_6c8d3dc8_f35f02b5_69b4fa28_4265bbab_1c4fa504_c01372e8
  {
    Four(pw, e, 0xffffffff_ffffffff_ffffffff_ffffffff_ffffffff_ffffffff_fffffffe_fffffc2f, 1, 1, 1, 1,
         0xdb8a2017_99d4423a_681d9018_d14ed2e3_00a50dd4_83a003b9_4335026d_9ce053cb,
         0x9e82b65f_14badd74_3584a539_f01c6f00_3ed88c95_c04e4035_6e7534b4_11e5a7fc,
         0x9035d862_ad8cacde_9dc9cbd1_b7e80688_b1555378_9a775c6f_35a2bfd0_e8a56ea1,
         0x546d14a6_f333c170_530e1953_a8584a76_a9f90199_5cd6b70f_78f1c960_bcc6c4d8,
         0xc5463f86_eec4a6f0_5286314f_cbf3e629_150a46dd_80847944_34290493_fcdd5298);
    Four(pw, 256 * e + 85, 0xffffffff_ffffffff_ffffffff_ffffffff_ffffffff_ffffffff_fffffffe_fffffc2f, 1, 1, 1, 1,
         0xc5463f86_eec4a6f0_5286314f_cbf3e629_150a46dd_80847944_34290493_fcdd5298,
         0xe91bcf5b_9b80834e_dc0c1514_769ad63b_27ecc5f9_a4f3e839_d630afff_69356ebc,
         0x5657a8ba_b9ada66c_ec6095cf_fd2d1ad2_6243c4d2_3df5d9d1_572b13c3_a5feb2ea,
         0xb4aea16c_0ddaf69a_2b1937d0_4d7b2400_fb41f0b3_bc2c2d66_f80304f2_3df50e3d,
         0xfa7e1a30_e83a9ea9_6c8d3dc8_f35f02b5_69b4fa28_4265bbab_1c4fa504_c01372e8);
  }

  lemma Part14(pw: nat -> nat, e: nat)
    requires Climbs(pw, 0xffffffff_ffffffff_ffffffff_ffffffff_ffffffff_ffffffff_fffffffe_fffffc2f) && pw(e) == 0xfa7e1a30_e83a9ea9_6c8d3dc8_f35f02b5_69b4fa28_4265bbab_1c4fa504_c01372e8
    ensures pw(0x1_0000 * e + 0x5554) == 0x0bb86cf6_abf01a27_b7e43f29_56475fa5_f3fbec7d_6e2c9da5_00f74691_bd4a5dcb
  {
    Four(pw, e, 0xffffffff_ffffffff_ffffffff_ffffffff_ffffffff_ffffffff_fffffffe_fffffc2f, 1, 1, 1, 1,
         0xfa7e1a30_e83a9ea9_6c8d3dc8_f35f02b5_69b4fa28_4265bbab_1c4fa504_c01372e8,
         0x1a66d9d4_838f46bb_12654df3_977d204d_2a75011b_476b37e2_216db56a_681145ed,
         0xda13bbf4_1e6b20d5_f6c877a9_a5e95e38_e2b4edb7_b0550913_6c910ce1_8ad8b0af,
         0xb043bcbe_8f9ecbb9_9bc71586_c42411e0_4617b0a0_60279a7d_ead3170e_d8b474e8,
         0xa473c681_994c5414_3b7c2f45_1f43288e_63162dbd_3dd4ba79_4b55f3b4_e3c46ed5);
    Four(pw, 256 * e + 85, 0xffffffff_ffffffff_ffffffff_ffffffff_ffffffff_ffffffff_fffffffe_fffffc2f, 1, 1, 1, 0,
         0xa473c681_994c5414_3b7c2f45_1f43288e_63162dbd_3dd4ba79_4b55f3b4_e3c46ed5,
         0x9b6aca0b_3a4434c3_fc893175_36996041_a7eb4fc9_bcbaeb35_7e1d7674_9a5dd59b,
         0xf68b7860_302f1ffa_8f5a98f6_ce057ddd_bb8529d3_5f3f6b2d_9cc7c3e7_fc8b4cea,
         0xd45c997e_9252d734_3e97b358_9c768bb4_549de9c4_9830b1b5_19132459_6093ace4,
         0x0bb86cf6_abf01a27_b7e43f29_56475fa5_f3fbec7d_6e2c9da5_00f74691_bd4a5dcb);
  }

  lemma Part15(pw: nat -> nat, e: nat)
    requires Climbs(pw, 0xffffffff_ffffffff_ffffffff_ffffffff_ffffffff_ffffffff_fffffffe_fffffc2f) && pw(e) == 0x0bb86cf6_abf01a27_b7e43f29_56475fa5_f3fbec7d_6e2c9da5_00f74691_bd4a5dcb
    ensures pw(0x1_0000 * e + 0xffff) == 0x0fa70c0a_d5038698_30baf4cd_14067309_644e2441_2b1aedfc_901625e7_538c45df
  {
    Four(pw, e, 0xffffffff_ffffffff_ffffffff_ffffffff_ffffffff_ffffffff_fffffffe_fffffc2f, 3, 3, 3, 3,
         0x0bb86cf6_abf01a27_b7e43f29_56475fa5_f3fbec7d_6e2c9da5_00f74691_bd4a5dcb,
         0x0a69e0eb_b6f8ebfe_846ad95c_b159b22c_06d3d4f0_511f9603_63ab5816_b92be1f1,
         0x4a41a5c3_30b20176_a203bda1_7de29029_675d5a9e_cce500c6_07df00db_895b894e,
         0x503034bb_8f6c5208_d455752e_c5effef0_2cd294b8_d5cc5d87_d0ab3121_22cc6163,
         0x607faf72_366c6463_fe25ffd3_97613c11_5abb297a_80b749bd_5d1513d3_a0c8c1a4);
    Four(pw, 256 * e + 255, 0xffffffff_ffffffff_ffffffff_ffffffff_ffffffff_ffffffff_fffffffe_fffffc2f, 3, 3, 3, 3,
         0x607faf72_366c6463_fe25ffd3_97613c11_5abb297a_80b749bd_5d1513d3_a0c8c1a4,
         0xc5742b7a_cd721159_688ac7ce_47f8296f_eb796651_a13e83c6_096c0b26_abacdec5,
         0x0a02f6bc_3887ea5e_20d8cfed_ced3d4ba_684df830_caa5e20c_9b109e51_77d03564,
         0xd90dd6cb_24f83239_1392f29e_fb4523fb_20b0924d_0aa3e1ed_9a4aec40_a128dd68,
         0x0fa70c0a_d5038698_30baf4cd_14067309_644e2441_2b1aedfc_901625e7_538c45df);
  }

  lemma Part16(pw: nat -> nat, e: nat)
    requires Climbs(pw, 0xffffffff_ffffffff_ffffffff_ffffffff_ffffffff_ffffffff_fffffffe_fffffc2f) && pw(e) == 0x0fa70c0a_d5038698_30baf4cd_14067309_644e2441_2b1aedfc_901625e7_538c45df
    ensures pw(0x1_0000 * e + 0xfeba) == 0x7ae96a2b_657c0710_6e64479e_ac3434e9_9cf04975_12f58995_c1396c28_719501ee
  {
    Four(pw, e, 0xffffffff_ffffffff_ffffffff_ffffffff_ffffffff_ffffffff_fffffffe_fffffc2f, 3, 3, 3, 2,
         0x0fa70c0a_d5038698_30baf4cd_14067309_644e2441_2b1aedfc_901625e7_538c45df,
         0xe7b871c0_2eafb827_b67e54b6_1da6190c_ec265a3c_99ef4569_58109493_e6973b45,
         0xc6165f84_551f435d_469ea230_d952ff9a_df50fb60_9e61d46b_eb43e62e_df89f56f,
         0x2b6fbab8_111fc4d4_eba0a4bf_3dd4c7ad_61bf9b40_fefd1bc3_f885e929_7bd0bb93,
         0x6a8687a9_be6284b5_1c6215e6_98ef76dd_57eb11fc_db3ea1fa_6221b754_5705ff31);
    Four(pw, 256 * e + 254, 0xffffffff_ffffffff_ffffffff_ffffffff_ffffffff_ffffffff_fffffffe_fffffc2f, 2, 3, 2, 2,
         0x6a8687a9_be6284b5_1c6215e6_98ef76dd_57eb11fc_db3ea1fa_6221b754_5705ff31,
         0x25671368_cfaa7f36_1a6f3329_49f179a9_fbe195f8_b3386259_f3028fd4_9e150e32,
         0x9804320c_f572d25a_25f62b40_8e402b52_77e2888e_049e1e30_b90f634b_98a4a627,
         0xcd6e3c1e_14cec02a_fe40de54_596cf176_419396ea_4ef9bfdf_47c0786d_37f5123a,
         0x7ae96a2b_657c0710_6e64479e_ac3434e9_9cf04975_12f58995_c1396c28_719501ee);
  }

  /** 7 is not a cube: its power to the third of P - 1 is not one. */
  lemma {:induction false} SevenIsNoCube(h: nat)
    requires P - 1 == 6 * h
    ensures ModPow(7, 2 * h, P) != 1
  {
    var pw := PowersOfSeven(P);
    PowersClimb(P);
    SmallPowers(P);
    var e0: nat := 0;
    var e1 := 0x1_0000 * e0 + 0x5555;
    Part1(pw, e0);
    var e2 := 0x1_0000 * e1 + 0x5555;
    Part2(pw, e1);
    var e3 := 0x1_0000 * e2 + 0x5555;
    Part3(pw, e2);
    var e4 := 0x1_0000 * e3 + 0x5555;
    Part4(pw, e3);
    var e5 := 0x1_0000 * e4 + 0x5555;
    Part5(pw, e4);
    var e6 := 0x1_0000 * e5 + 0x5555;
    Part6(pw, e5);
    var e7 := 0x1_0000 * e6 + 0x5555;
    Part7(pw, e6);
    var e8 := 0x1_0000 * e7 + 0x5555;
    Part8(pw, e7);
    var e9 := 0x1_0000 * e8 + 0x5555;
    Part9(pw, e8);
    var e10 := 0x1_0000 * e9 + 0x5555;
    Part10(pw, e9);
    var e11 := 0x1_0000 * e10 + 0x5555;
    Part11(pw, e10);
    var e12 := 0x1_0000 * e11 + 0x5555;
    Part12(pw, e11);
    var e13 := 0x1_0000 * e12 + 0x5555;
    Part13(pw, e12);
    var e14 := 0x1_0000 * e13 + 0x5554;
    Part14(pw, e13);
    var e15 := 0x1_0000 * e14 + 0xffff;
    Part15(pw, e14);
    var e16 := 0x1_0000 * e15 + 0xfeba;
    Part16(pw, e15);
    assert e16 == 2 * h;
  }

  // --------------------------------------------------------------------- the theorems

  /** No x makes x^3 + 7 zero in secp256k1's field. */
  lemma {:induction false} RhsNeverZero(x: nat)
    requires PrimeField(P)
    ensures Rhs(x, P) != 0
  {
    var h: nat := (P - 1) / 6;
    SevenIsNoCube(h);
    RhsReduced(x, P);
    if Rhs(x % P, P) == 0 { RootMakesCube(x % P, h, P); }
  }

  /** On the real curve Decompress yields a point for exactly the keys that OnCurve accepts. */
  lemma {:induction false} DecompressesExactlyOnCurve(c: Bytes)
    requires PrimeField(P)
    ensures Decompress(c, P).Some? <==> OnCurve(c, P)
  {
    DecompressAccepts(c, P);
    if OnCurve(c, P) { RhsNeverZero(BigEndian(c[1..], 256)); }
  }
}
