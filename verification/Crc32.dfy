/**
 The table-driven CRC, against division of polynomials with coefficients in GF(2).

 The polynomial is that of clause 3.2.9 of IEEE Std 802.3, in the form without reflection and
 without a final exclusive-or of Annex A of ISO/IEC 13818-1.
*/
module Crc32 {

  import P = Polynomials

  const POLY: bv32 := 0x04c1_1db7
  const TOP: bv32 := 0x8000_0000

  /** Sixteen consecutive entries of the table. */
  function Row(h: nat): (r: seq<bv32>)
    requires h < 16
    ensures |r| == 16
  {
    match h
    case 0 => [
      0x0000_0000, 0x04c1_1db7, 0x0982_3b6e, 0x0d43_26d9, 0x1304_76dc, 0x17c5_6b6b, 0x1a86_4db2, 0x1e47_5005,
      0x2608_edb8, 0x22c9_f00f, 0x2f8a_d6d6, 0x2b4b_cb61, 0x350c_9b64, 0x31cd_86d3, 0x3c8e_a00a, 0x384f_bdbd]
    case 1 => [
      0x4c11_db70, 0x48d0_c6c7, 0x4593_e01e, 0x4152_fda9, 0x5f15_adac, 0x5bd4_b01b, 0x5697_96c2, 0x5256_8b75,
      0x6a19_36c8, 0x6ed8_2b7f, 0x639b_0da6, 0x675a_1011, 0x791d_4014, 0x7ddc_5da3, 0x709f_7b7a, 0x745e_66cd]
    case 2 => [
      0x9823_b6e0, 0x9ce2_ab57, 0x91a1_8d8e, 0x9560_9039, 0x8b27_c03c, 0x8fe6_dd8b, 0x82a5_fb52, 0x8664_e6e5,
      0xbe2b_5b58, 0xbaea_46ef, 0xb7a9_6036, 0xb368_7d81, 0xad2f_2d84, 0xa9ee_3033, 0xa4ad_16ea, 0xa06c_0b5d]
    case 3 => [
      0xd432_6d90, 0xd0f3_7027, 0xddb0_56fe, 0xd971_4b49, 0xc736_1b4c, 0xc3f7_06fb, 0xceb4_2022, 0xca75_3d95,
      0xf23a_8028, 0xf6fb_9d9f, 0xfbb8_bb46, 0xff79_a6f1, 0xe13e_f6f4, 0xe5ff_eb43, 0xe8bc_cd9a, 0xec7d_d02d]
    case 4 => [
      0x3486_7077, 0x3047_6dc0, 0x3d04_4b19, 0x39c5_56ae, 0x2782_06ab, 0x2343_1b1c, 0x2e00_3dc5, 0x2ac1_2072,
      0x128e_9dcf, 0x164f_8078, 0x1b0c_a6a1, 0x1fcd_bb16, 0x018a_eb13, 0x054b_f6a4, 0x0808_d07d, 0x0cc9_cdca]
    case 5 => [
      0x7897_ab07, 0x7c56_b6b0, 0x7115_9069, 0x75d4_8dde, 0x6b93_dddb, 0x6f52_c06c, 0x6211_e6b5, 0x66d0_fb02,
      0x5e9f_46bf, 0x5a5e_5b08, 0x571d_7dd1, 0x53dc_6066, 0x4d9b_3063, 0x495a_2dd4, 0x4419_0b0d, 0x40d8_16ba]
    case 6 => [
      0xaca5_c697, 0xa864_db20, 0xa527_fdf9, 0xa1e6_e04e, 0xbfa1_b04b, 0xbb60_adfc, 0xb623_8b25, 0xb2e2_9692,
      0x8aad_2b2f, 0x8e6c_3698, 0x832f_1041, 0x87ee_0df6, 0x99a9_5df3, 0x9d68_4044, 0x902b_669d, 0x94ea_7b2a]
    case 7 => [
      0xe0b4_1de7, 0xe475_0050, 0xe936_2689, 0xedf7_3b3e, 0xf3b0_6b3b, 0xf771_768c, 0xfa32_5055, 0xfef3_4de2,
      0xc6bc_f05f, 0xc27d_ede8, 0xcf3e_cb31, 0xcbff_d686, 0xd5b8_8683, 0xd179_9b34, 0xdc3a_bded, 0xd8fb_a05a]
    case 8 => [
      0x690c_e0ee, 0x6dcd_fd59, 0x608e_db80, 0x644f_c637, 0x7a08_9632, 0x7ec9_8b85, 0x738a_ad5c, 0x774b_b0eb,
      0x4f04_0d56, 0x4bc5_10e1, 0x4686_3638, 0x4247_2b8f, 0x5c00_7b8a, 0x58c1_663d, 0x5582_40e4, 0x5143_5d53]
    case 9 => [
      0x251d_3b9e, 0x21dc_2629, 0x2c9f_00f0, 0x285e_1d47, 0x3619_4d42, 0x32d8_50f5, 0x3f9b_762c, 0x3b5a_6b9b,
      0x0315_d626, 0x07d4_cb91, 0x0a97_ed48, 0x0e56_f0ff, 0x1011_a0fa, 0x14d0_bd4d, 0x1993_9b94, 0x1d52_8623]
    case 10 => [
      0xf12f_560e, 0xf5ee_4bb9, 0xf8ad_6d60, 0xfc6c_70d7, 0xe22b_20d2, 0xe6ea_3d65, 0xeba9_1bbc, 0xef68_060b,
      0xd727_bbb6, 0xd3e6_a601, 0xdea5_80d8, 0xda64_9d6f, 0xc423_cd6a, 0xc0e2_d0dd, 0xcda1_f604, 0xc960_ebb3]
    case 11 => [
      0xbd3e_8d7e, 0xb9ff_90c9, 0xb4bc_b610, 0xb07d_aba7, 0xae3a_fba2, 0xaafb_e615, 0xa7b8_c0cc, 0xa379_dd7b,
      0x9b36_60c6, 0x9ff7_7d71, 0x92b4_5ba8, 0x9675_461f, 0x8832_161a, 0x8cf3_0bad, 0x81b0_2d74, 0x8571_30c3]
    case 12 => [
      0x5d8a_9099, 0x594b_8d2e, 0x5408_abf7, 0x50c9_b640, 0x4e8e_e645, 0x4a4f_fbf2, 0x470c_dd2b, 0x43cd_c09c,
      0x7b82_7d21, 0x7f43_6096, 0x7200_464f, 0x76c1_5bf8, 0x6886_0bfd, 0x6c47_164a, 0x6104_3093, 0x65c5_2d24]
    case 13 => [
      0x119b_4be9, 0x155a_565e, 0x1819_7087, 0x1cd8_6d30, 0x029f_3d35, 0x065e_2082, 0x0b1d_065b, 0x0fdc_1bec,
      0x3793_a651, 0x3352_bbe6, 0x3e11_9d3f, 0x3ad0_8088, 0x2497_d08d, 0x2056_cd3a, 0x2d15_ebe3, 0x29d4_f654]
    case 14 => [
      0xc5a9_2679, 0xc168_3bce, 0xcc2b_1d17, 0xc8ea_00a0, 0xd6ad_50a5, 0xd26c_4d12, 0xdf2f_6bcb, 0xdbee_767c,
      0xe3a1_cbc1, 0xe760_d676, 0xea23_f0af, 0xeee2_ed18, 0xf0a5_bd1d, 0xf464_a0aa, 0xf927_8673, 0xfde6_9bc4]
    case _ => [
      0x89b8_fd09, 0x8d79_e0be, 0x803a_c667, 0x84fb_dbd0, 0x9abc_8bd5, 0x9e7d_9662, 0x933e_b0bb, 0x97ff_ad0c,
      0xafb0_10b1, 0xab71_0d06, 0xa632_2bdf, 0xa2f3_3668, 0xbcb4_666d, 0xb875_7bda, 0xb536_5d03, 0xb1f7_40b4]
  }

  function Rows(k: nat): (r: seq<bv32>)
    requires k <= 16
    ensures |r| == 16 * k
  {
    if k == 0 then [] else Rows(k - 1) + Row(k - 1)
  }

  /** `__crc32_table` */
  const CRC_TABLE := Rows(16)

  lemma {:induction false} RowsAt(k: nat, h: nat, l: nat)
    requires h < k <= 16 && l < 16
    ensures Rows(k)[16 * h + l] == Row(h)[l]
    decreases k
  {
    hide Row;
    if h == k - 1 {
    } else {
      RowsAt(k - 1, h, l);
    }
  }

  // ---------- one bit ----------

  predicate Top(r: bv32) {
    r & TOP != 0
  }

  /** Addition of polynomials. */
  function Plus(a: bv32, b: bv32): bv32 {
    a ^ b
  }

  function Twice(a: bv32): bv32 {
    a << 1
  }

  function When(c: bool): bv32 {
    if c then POLY else 0
  }

  /** The register after one bit position: shift, and subtract the polynomial if a one fell out. */
  function Step(r: bv32): bv32 {
    Plus(Twice(r), When(Top(r)))
  }

  function Steps(r: bv32, n: nat): bv32
    decreases n
  {
    if n == 0 then r else Steps(Step(r), n - 1)
  }

  lemma TopXor(a: bv32, b: bv32)
    ensures Top(Plus(a, b)) <==> (Top(a) != Top(b))
  {
  }

  lemma TwiceXor(a: bv32, b: bv32)
    ensures Twice(Plus(a, b)) == Plus(Twice(a), Twice(b))
  {
  }

  lemma PlusShuffle(a: bv32, p: bv32, b: bv32, q: bv32)
    ensures Plus(Plus(a, p), Plus(b, q)) == Plus(Plus(a, b), Plus(p, q))
  {
    hide Plus;
    PlusAssociates(a, p, Plus(b, q));
    PlusAssociates(p, b, q);
    PlusCommutes(p, b);
    PlusAssociates(b, p, q);
    PlusAssociates(a, b, Plus(p, q));
  }

  lemma PlusAssociates(a: bv32, b: bv32, c: bv32)
    ensures Plus(Plus(a, b), c) == Plus(a, Plus(b, c))
  {
  }

  lemma PlusCommutes(a: bv32, b: bv32)
    ensures Plus(a, b) == Plus(b, a)
  {
  }

  lemma WhenXor(s: bool, t: bool)
    ensures Plus(When(s), When(t)) == When(s != t)
  {
  }

  lemma StepLinear(a: bv32, b: bv32)
    ensures Step(Plus(a, b)) == Plus(Step(a), Step(b))
  {
    hide Top, Plus, Twice, When;
    TopXor(a, b);
    TwiceXor(a, b);
    WhenXor(Top(a), Top(b));
    PlusShuffle(Twice(a), When(Top(a)), Twice(b), When(Top(b)));
  }

  lemma {:induction false} StepsLinear(a: bv32, b: bv32, n: nat)
    ensures Steps(Plus(a, b), n) == Plus(Steps(a, n), Steps(b, n))
    decreases n
  {
    hide Step, Plus;
    if n == 0 {
    } else {
      StepLinear(a, b);
      StepsLinear(Step(a), Step(b), n - 1);
    }
  }

  /** What eight steps make of the register: the value the table should hold for its top byte. */
  function Byte(r: bv32): bv32 {
    Step(Step(Step(Step(Step(Step(Step(Step(r))))))))
  }

  lemma ByteIsSteps(r: bv32)
    ensures Byte(r) == Steps(r, 8)
  {
    hide Step;
    assert Steps(r, 8) == Steps(Step(r), 7);
    assert Steps(r, 8) == Steps(Step(Step(Step(Step(r)))), 4);
  }

  // ---------- the table ----------

  /** A row with a value added to every entry. */
  function Shifted(c: bv32, r: seq<bv32>): (s: seq<bv32>)
    requires |r| == 16
    ensures |s| == 16
  {
    [Plus(c, r[0]), Plus(c, r[1]), Plus(c, r[2]), Plus(c, r[3]),
     Plus(c, r[4]), Plus(c, r[5]), Plus(c, r[6]), Plus(c, r[7]),
     Plus(c, r[8]), Plus(c, r[9]), Plus(c, r[10]), Plus(c, r[11]),
     Plus(c, r[12]), Plus(c, r[13]), Plus(c, r[14]), Plus(c, r[15])]
  }

  predicate Affine(h: nat)
    requires h < 16
  {
    Row(h) == Shifted(Row(h)[0], Row(0))
  }

  lemma Rows0()
    ensures Affine(0) && Affine(1) && Affine(2) && Affine(3)
  {
  }

  lemma Rows4()
    ensures Affine(4) && Affine(5) && Affine(6) && Affine(7)
  {
  }

  lemma Rows8()
    ensures Affine(8) && Affine(9) && Affine(10) && Affine(11)
  {
  }

  lemma Rows12()
    ensures Affine(12) && Affine(13) && Affine(14) && Affine(15)
  {
  }

  lemma RowAffine(h: nat)
    requires h < 16
    ensures Affine(h)
  {
    hide Affine;
    Rows0();
    Rows4();
    Rows8();
    Rows12();
  }

  /** Twice the argument takes one more step. */
  lemma Doubled(r: bv32, e: bv32, r': bv32, e': bv32)
    requires e == Byte(r) && r' == Step(r) && e' == Step(e)
    ensures e' == Byte(r')
  {
    hide Step;
  }

  lemma Added(r: bv32, e: bv32, s: bv32, f: bv32, t: bv32, g: bv32)
    requires e == Byte(r) && f == Byte(s) && t == Plus(r, s) && g == Plus(e, f)
    ensures g == Byte(t)
  {
    hide Byte, Plus;
    ByteLinear(r, s);
  }

  lemma FirstEntries()
    ensures Row(0)[0] == Byte(0x0000_0000) && Row(0)[1] == Byte(0x0100_0000)
  {
  }

  lemma ColumnPowers()
    ensures Row(0)[1] == Byte(0x0100_0000) && Row(0)[2] == Byte(0x0200_0000)
    ensures Row(0)[4] == Byte(0x0400_0000) && Row(0)[8] == Byte(0x0800_0000)
  {
    hide Byte;
    FirstEntries();
    Doubled(0x0100_0000, Row(0)[1], 0x0200_0000, Row(0)[2]);
    Doubled(0x0200_0000, Row(0)[2], 0x0400_0000, Row(0)[4]);
    Doubled(0x0400_0000, Row(0)[4], 0x0800_0000, Row(0)[8]);
  }

  lemma HeadPowers()
    ensures Row(1)[0] == Byte(0x1000_0000) && Row(2)[0] == Byte(0x2000_0000)
    ensures Row(4)[0] == Byte(0x4000_0000) && Row(8)[0] == Byte(0x8000_0000)
  {
    hide Byte;
    ColumnPowers();
    Doubled(0x0800_0000, Row(0)[8], 0x1000_0000, Row(1)[0]);
    Doubled(0x1000_0000, Row(1)[0], 0x2000_0000, Row(2)[0]);
    Doubled(0x2000_0000, Row(2)[0], 0x4000_0000, Row(4)[0]);
    Doubled(0x4000_0000, Row(4)[0], 0x8000_0000, Row(8)[0]);
  }

  lemma LowColumns()
    ensures Row(0)[0] == Byte(0x0000_0000) && Row(0)[1] == Byte(0x0100_0000)
    ensures Row(0)[2] == Byte(0x0200_0000) && Row(0)[3] == Byte(0x0300_0000)
    ensures Row(0)[4] == Byte(0x0400_0000) && Row(0)[5] == Byte(0x0500_0000)
    ensures Row(0)[6] == Byte(0x0600_0000) && Row(0)[7] == Byte(0x0700_0000)
  {
    hide Byte;
    FirstEntries();
    ColumnPowers();
    Added(0x0200_0000, Row(0)[2], 0x0100_0000, Row(0)[1], 0x0300_0000, Row(0)[3]);
    Added(0x0400_0000, Row(0)[4], 0x0100_0000, Row(0)[1], 0x0500_0000, Row(0)[5]);
    Added(0x0400_0000, Row(0)[4], 0x0200_0000, Row(0)[2], 0x0600_0000, Row(0)[6]);
    Added(0x0400_0000, Row(0)[4], 0x0300_0000, Row(0)[3], 0x0700_0000, Row(0)[7]);
  }

  lemma HighColumns()
    ensures Row(0)[8] == Byte(0x0800_0000) && Row(0)[9] == Byte(0x0900_0000)
    ensures Row(0)[10] == Byte(0x0a00_0000) && Row(0)[11] == Byte(0x0b00_0000)
    ensures Row(0)[12] == Byte(0x0c00_0000) && Row(0)[13] == Byte(0x0d00_0000)
    ensures Row(0)[14] == Byte(0x0e00_0000) && Row(0)[15] == Byte(0x0f00_0000)
  {
    hide Byte;
    LowColumns();
    ColumnPowers();
    Added(0x0800_0000, Row(0)[8], 0x0100_0000, Row(0)[1], 0x0900_0000, Row(0)[9]);
    Added(0x0800_0000, Row(0)[8], 0x0200_0000, Row(0)[2], 0x0a00_0000, Row(0)[10]);
    Added(0x0800_0000, Row(0)[8], 0x0300_0000, Row(0)[3], 0x0b00_0000, Row(0)[11]);
    Added(0x0800_0000, Row(0)[8], 0x0400_0000, Row(0)[4], 0x0c00_0000, Row(0)[12]);
    Added(0x0800_0000, Row(0)[8], 0x0500_0000, Row(0)[5], 0x0d00_0000, Row(0)[13]);
    Added(0x0800_0000, Row(0)[8], 0x0600_0000, Row(0)[6], 0x0e00_0000, Row(0)[14]);
    Added(0x0800_0000, Row(0)[8], 0x0700_0000, Row(0)[7], 0x0f00_0000, Row(0)[15]);
  }

  lemma LowHeads()
    ensures Row(0)[0] == Byte(0x0000_0000) && Row(1)[0] == Byte(0x1000_0000)
    ensures Row(2)[0] == Byte(0x2000_0000) && Row(3)[0] == Byte(0x3000_0000)
    ensures Row(4)[0] == Byte(0x4000_0000) && Row(5)[0] == Byte(0x5000_0000)
    ensures Row(6)[0] == Byte(0x6000_0000) && Row(7)[0] == Byte(0x7000_0000)
  {
    hide Byte;
    FirstEntries();
    HeadPowers();
    Added(0x2000_0000, Row(2)[0], 0x1000_0000, Row(1)[0], 0x3000_0000, Row(3)[0]);
    Added(0x4000_0000, Row(4)[0], 0x1000_0000, Row(1)[0], 0x5000_0000, Row(5)[0]);
    Added(0x4000_0000, Row(4)[0], 0x2000_0000, Row(2)[0], 0x6000_0000, Row(6)[0]);
    Added(0x4000_0000, Row(4)[0], 0x3000_0000, Row(3)[0], 0x7000_0000, Row(7)[0]);
  }

  lemma HighHeads()
    ensures Row(8)[0] == Byte(0x8000_0000) && Row(9)[0] == Byte(0x9000_0000)
    ensures Row(10)[0] == Byte(0xa000_0000) && Row(11)[0] == Byte(0xb000_0000)
  {
    hide Byte;
    LowHeads();
    HeadPowers();
    Added(0x8000_0000, Row(8)[0], 0x1000_0000, Row(1)[0], 0x9000_0000, Row(9)[0]);
    Added(0x8000_0000, Row(8)[0], 0x2000_0000, Row(2)[0], 0xa000_0000, Row(10)[0]);
    Added(0x8000_0000, Row(8)[0], 0x3000_0000, Row(3)[0], 0xb000_0000, Row(11)[0]);
  }

  lemma TopHeads()
    ensures Row(12)[0] == Byte(0xc000_0000) && Row(13)[0] == Byte(0xd000_0000)
    ensures Row(14)[0] == Byte(0xe000_0000) && Row(15)[0] == Byte(0xf000_0000)
  {
    hide Byte;
    LowHeads();
    HeadPowers();
    Added(0x8000_0000, Row(8)[0], 0x4000_0000, Row(4)[0], 0xc000_0000, Row(12)[0]);
    Added(0x8000_0000, Row(8)[0], 0x5000_0000, Row(5)[0], 0xd000_0000, Row(13)[0]);
    Added(0x8000_0000, Row(8)[0], 0x6000_0000, Row(6)[0], 0xe000_0000, Row(14)[0]);
    Added(0x8000_0000, Row(8)[0], 0x7000_0000, Row(7)[0], 0xf000_0000, Row(15)[0]);
  }

  lemma Head(h: bv8)
    requires h < 16 && (h as nat) < 16
    ensures Row(h as nat)[0] == Byte((h as bv32) << 28)
  {
    hide Row, Byte;
    LowHeads();
    HighHeads();
    TopHeads();
  }

  lemma Column(l: bv8)
    requires l < 16 && (l as nat) < 16
    ensures Row(0)[l as nat] == Byte((l as bv32) << 24)
  {
    hide Row, Byte;
    LowColumns();
    HighColumns();
  }

  lemma Nibbles(i: bv8)
    ensures i >> 4 < 16 && i & 15 < 16 && ((i >> 4) as nat) < 16 && ((i & 15) as nat) < 16
    ensures (i as nat) == 16 * ((i >> 4) as nat) + ((i & 15) as nat)
    ensures (i as bv32) << 24 == Plus(((i >> 4) as bv32) << 28, ((i & 15) as bv32) << 24)
  {
  }

  lemma ShiftedAt(c: bv32, r: seq<bv32>, l: nat)
    requires |r| == 16 && l < 16
    ensures Shifted(c, r)[l] == Plus(c, r[l])
  {
    hide Plus;
    match l
    case 0 => case 1 => case 2 => case 3 => case 4 => case 5 => case 6 => case 7 =>
    case 8 => case 9 => case 10 => case 11 => case 12 => case 13 => case 14 => case _ =>
  }

  /** Entry i is what eight steps make of a register holding i in its top byte. */
  lemma TableEntry(i: bv8)
    ensures CRC_TABLE[i as nat] == Byte(AtTop(i))
  {
    hide Row, Rows, Byte, Plus, Shifted;
    Nibbles(i);
    var h, l := i >> 4, i & 15;
    RowsAt(16, h as nat, l as nat);
    RowAffine(h as nat);
    ShiftedAt(Row(h as nat)[0], Row(0), l as nat);
    Head(h);
    Column(l);
    ByteLinear((h as bv32) << 28, (l as bv32) << 24);
  }

  lemma ByteLinear(a: bv32, b: bv32)
    ensures Byte(Plus(a, b)) == Plus(Byte(a), Byte(b))
  {
    hide Byte, Plus;
    ByteIsSteps(a);
    ByteIsSteps(b);
    ByteIsSteps(Plus(a, b));
    StepsLinear(a, b, 8);
  }

  // ---------- one byte ----------

  function ByteUp(r: bv32): bv32 {
    r << 8
  }

  function Low(r: bv32): bv32 {
    r & 0x00ff_ffff
  }

  function AtTop(b: bv8): bv32 {
    (b as bv32) << 24
  }

  /** Which entry of the table is looked up. */
  function Index(r: bv32, b: bv8): bv8 {
    (((r >> 24) ^ (b as bv32)) & 255) as bv8
  }

  /** The register after one byte, by the table. */
  function ByByte(r: bv32, b: bv8): bv32 {
    (r << 8) ^ CRC_TABLE[(((r >> 24) ^ (b as bv32)) & 255) as nat]
  }

  lemma InParts(r: bv32, b: bv8)
    ensures ByByte(r, b) == Plus(ByteUp(r), CRC_TABLE[Index(r, b) as nat])
  {
    hide CRC_TABLE, Index;
    SameIndex(r, b);
  }

  lemma SameIndex(r: bv32, b: bv8)
    ensures (((r >> 24) ^ (b as bv32)) & 255) as nat == Index(r, b) as nat
  {
  }

  /** With nothing in the top byte, eight steps only shift. */
  lemma NoFeedback(r: bv32)
    ensures Byte(Low(r)) == ByteUp(r)
  {
  }

  lemma ByteParts(r: bv32, b: bv8)
    ensures Plus(r, AtTop(b)) == Plus(Low(r), AtTop(Index(r, b)))
  {
  }

  /** One table step is eight single steps with the byte added to the top of the register. */
  lemma ByByteIsEightSteps(r: bv32, b: bv8)
    ensures ByByte(r, b) == Steps(Plus(r, AtTop(b)), 8)
  {
    hide Byte, ByByte, Steps, Index, CRC_TABLE, Plus, ByteUp, Low, AtTop;
    InParts(r, b);
    ByteParts(r, b);
    NoFeedback(r);
    TableEntry(Index(r, b));
    ByteLinear(Low(r), AtTop(Index(r, b)));
    ByteIsSteps(Plus(r, AtTop(b)));
  }

  // ---------- whole buffers ----------

  /** The register after a buffer, by the table. */
  function HashOf(buf: seq<bv8>, init: bv32): bv32 {
    if buf == [] then init else HashOf(buf[1..], ByByte(init, buf[0]))
  }

  /** `Utils_CRC32::hash` */
  method Hash(buf: array<bv8>, len: nat, init: bv32) returns (crc: bv32)
    requires len <= buf.Length
    ensures crc == HashOf(buf[..len], init)
  {
    hide ByByte;
    crc := init;
    var at := 0;
    assert buf[0..len] == buf[..len];
    while at < len
      invariant at <= len
      invariant HashOf(buf[at..len], crc) == HashOf(buf[..len], init)
    {
      assert buf[at..len][1..] == buf[at + 1..len];
      crc := ByByte(crc, buf[at]);
      at := at + 1;
    }
  }

  /** A buffer can be hashed in pieces. */
  lemma {:induction false} HashAppend(a: seq<bv8>, b: seq<bv8>, init: bv32)
    ensures HashOf(a + b, init) == HashOf(b, HashOf(a, init))
    decreases |a|
  {
    hide ByByte;
    if a == [] {
      assert a + b == b;
    } else {
      assert (a + b)[1..] == a[1..] + b;
      HashAppend(a[1..], b, ByByte(init, a[0]));
    }
  }

  function Mixed(a: seq<bv8>, b: seq<bv8>): (c: seq<bv8>)
    requires |a| == |b|
    ensures |c| == |a|
  {
    seq(|a|, k requires 0 <= k < |a| => a[k] ^ b[k])
  }

  lemma AtTopXor(a: bv8, b: bv8)
    ensures AtTop(a ^ b) == Plus(AtTop(a), AtTop(b))
  {
  }

  lemma ByByteLinear(r: bv32, s: bv32, a: bv8, b: bv8)
    ensures ByByte(Plus(r, s), a ^ b) == Plus(ByByte(r, a), ByByte(s, b))
  {
    hide ByByte, Steps, Plus, AtTop;
    ByByteIsEightSteps(r, a);
    ByByteIsEightSteps(s, b);
    ByByteIsEightSteps(Plus(r, s), a ^ b);
    AtTopXor(a, b);
    PlusShuffle(r, AtTop(a), s, AtTop(b));
    StepsLinear(Plus(r, AtTop(a)), Plus(s, AtTop(b)), 8);
  }

  /** The hash of a sum is the sum of the hashes. */
  lemma HashLinear(a: seq<bv8>, b: seq<bv8>, i: bv32, j: bv32)
    requires |a| == |b|
    ensures HashOf(Mixed(a, b), i ^ j) == HashOf(a, i) ^ HashOf(b, j)
  {
    HashLinearPlus(a, b, i, j);
    SumIsXor(i, j);
    SumIsXor(HashOf(a, i), HashOf(b, j));
  }

  lemma SumIsXor(a: bv32, b: bv32)
    ensures Plus(a, b) == a ^ b
  {
  }

  lemma {:induction false} HashLinearPlus(a: seq<bv8>, b: seq<bv8>, i: bv32, j: bv32)
    requires |a| == |b|
    ensures HashOf(Mixed(a, b), Plus(i, j)) == Plus(HashOf(a, i), HashOf(b, j))
    decreases |a|
  {
    hide ByByte, Plus;
    if a == [] {
    } else {
      assert Mixed(a, b)[1..] == Mixed(a[1..], b[1..]);
      ByByteLinear(i, j, a[0], b[0]);
      HashLinearPlus(a[1..], b[1..], ByByte(i, a[0]), ByByte(j, b[0]));
    }
  }

  // ---------- division ----------

  /** The first n coefficients of a register. */
  function Bits(r: bv32, n: nat): (p: P.Poly)
    ensures |p| == n
    decreases n
  {
    if n == 0 then [] else [Top(r)] + Bits(Twice(r), n - 1)
  }

  function BitsOf(buf: seq<bv8>): (m: P.Poly)
    ensures |m| == 8 * |buf|
  {
    if buf == [] then [] else Bits(AtTop(buf[0]), 8) + BitsOf(buf[1..])
  }

  /** x^32 and the lower powers of the polynomial. */
  const GENERATOR := [true] + Bits(POLY, 32)

  /** What is divided: the message times x^32, the initial value added to its first 32 coefficients. */
  function Dividend(m: P.Poly, init: bv32): (d: P.Poly)
    ensures |d| == |m| + 32
  {
    P.Sum(m + P.Zeros(32), Bits(init, 32) + P.Zeros(|m|))
  }

  function Bit(b: bool): bv32 {
    if b then TOP else 0
  }

  /** The register after a message, one bit at a time. */
  function Register(m: P.Poly, r: bv32): bv32 {
    if m == [] then r else Register(m[1..], Step(Plus(r, Bit(m[0]))))
  }

  lemma {:induction false} BitsLinear(a: bv32, b: bv32, n: nat)
    ensures Bits(Plus(a, b), n) == P.Sum(Bits(a, n), Bits(b, n))
    decreases n
  {
    hide Top, Plus, Twice;
    if n == 0 {
    } else {
      TopXor(a, b);
      TwiceXor(a, b);
      BitsLinear(Twice(a), Twice(b), n - 1);
    }
  }

  function Shift(r: bv32, n: nat): bv32
    decreases n
  {
    if n == 0 then r else Shift(Twice(r), n - 1)
  }

  lemma {:induction false} BitsSnoc(r: bv32, n: nat)
    ensures Bits(r, n + 1) == Bits(r, n) + [Top(Shift(r, n))]
    decreases n
  {
    hide Top, Twice;
    if n > 0 {
      BitsSnoc(Twice(r), n - 1);
    } else {
      assert Bits(Twice(r), 0) == [];
    }
  }

  lemma {:induction false} ZeroBits(n: nat)
    ensures Bits(0, n) == P.Zeros(n)
    decreases n
  {
    if n == 0 {
    } else {
      assert Twice(0) == 0;
      ZeroBits(n - 1);
    }
  }

  function FourUp(r: bv32): bv32 {
    r << 4
  }

  lemma FourTwice(r: bv32)
    ensures Twice(Twice(Twice(Twice(r)))) == FourUp(r)
  {
  }

  lemma FourFour(r: bv32)
    ensures FourUp(FourUp(r)) == ByteUp(r)
  {
  }

  lemma ShiftFour(r: bv32, n: nat)
    ensures Shift(r, n + 4) == Shift(FourUp(r), n)
  {
    hide Twice, FourUp;
    FourTwice(r);
    assert Shift(r, n + 4) == Shift(Twice(r), n + 3);
    assert Shift(r, n + 4) == Shift(Twice(Twice(r)), n + 2);
  }

  lemma ShiftByte(r: bv32, n: nat)
    ensures Shift(r, n + 8) == Shift(ByteUp(r), n)
  {
    hide FourUp, ByteUp;
    FourFour(r);
    ShiftFour(r, n + 4);
    ShiftFour(FourUp(r), n);
  }

  lemma NothingLeft(r: bv32, b: bv8)
    ensures ByteUp(ByteUp(ByteUp(ByteUp(r)))) == 0 && ByteUp(AtTop(b)) == 0
  {
  }

  lemma ShiftedOut(r: bv32, b: bv8)
    ensures Shift(r, 32) == 0 && Shift(AtTop(b), 8) == 0
  {
    hide ByteUp, AtTop;
    NothingLeft(r, b);
    ShiftByte(r, 24);
    ShiftByte(ByteUp(r), 16);
    ShiftByte(ByteUp(ByteUp(r)), 8);
    ShiftByte(ByteUp(ByteUp(ByteUp(r))), 0);
    ShiftByte(AtTop(b), 0);
  }

  /** A register is the polynomial of its 32 coefficients and nothing else. */
  lemma BitsDistinct(a: bv32, b: bv32)
    requires Bits(a, 32) == Bits(b, 32)
    ensures a == b
  {
    hide Leading, Pack, Bits;
    PackBits(a, 32);
    PackBits(b, 32);
    AllLeading(a);
    AllLeading(b);
  }

  function Pack(p: P.Poly): bv32 {
    if p == [] then 0 else Joined(p[0], Pack(p[1..]))
  }

  function Joined(b: bool, r: bv32): bv32 {
    (if b then TOP else 0) | (r >> 1)
  }

  function Keep(r: bv32, mask: bv32): bv32 {
    r & mask
  }

  function Leading(n: nat): bv32 {
    if n == 0 then 0 else Joined(true, Leading(n - 1))
  }

  lemma KeepJoined(r: bv32, mask: bv32)
    ensures Joined(Top(r), Keep(Twice(r), mask)) == Keep(r, Joined(true, mask))
  {
    hide Top, Keep, Twice, Joined;
    if Top(r) {
      KeepTop(r, mask);
    } else {
      KeepLow(r, mask);
    }
  }

  lemma KeepTop(r: bv32, mask: bv32)
    requires Top(r)
    ensures Joined(true, Keep(Twice(r), mask)) == Keep(r, Joined(true, mask))
  {
  }

  lemma KeepLow(r: bv32, mask: bv32)
    requires !Top(r)
    ensures Joined(false, Keep(Twice(r), mask)) == Keep(r, Joined(true, mask))
  {
  }

  lemma AllLeading(r: bv32)
    ensures Keep(r, Leading(32)) == r
  {
    assert Leading(8) == 0xff00_0000;
    assert Leading(16) == 0xffff_0000;
    assert Leading(24) == 0xffff_ff00;
  }

  lemma {:induction false} PackBits(r: bv32, n: nat)
    ensures Pack(Bits(r, n)) == Keep(r, Leading(n))
    decreases n
  {
    if n == 0 {
      KeepNone(r);
    } else {
      hide Top, Twice, Keep, Joined;
      KeepJoined(r, Leading(n - 1));
      PackBits(Twice(r), n - 1);
      assert Bits(r, n)[1..] == Bits(Twice(r), n - 1);
    }
  }

  lemma KeepNone(r: bv32)
    ensures Keep(r, 0) == 0
  {
  }

  /** Reading a message bit by bit is adding it to the register and stepping. */
  lemma {:induction false} RegisterOfBits(r: bv32, x: bv32, n: nat)
    ensures Steps(Plus(r, x), n) == Plus(Register(Bits(x, n), r), Shift(x, n))
    decreases n
  {
    if n == 0 {
    } else {
      hide Top, Twice, Plus, Step, Bit;
      OneBit(r, x);
      assert Bits(x, n)[1..] == Bits(Twice(x), n - 1);
      RegisterOfBits(Step(Plus(r, Bit(Top(x)))), Twice(x), n - 1);
    }
  }

  lemma OneBit(r: bv32, x: bv32)
    ensures Step(Plus(r, x)) == Plus(Step(Plus(r, Bit(Top(x)))), Twice(x))
  {
    hide Step, Plus, Bit;
    SplitTop(r, x);
    StepLinear(Plus(r, Bit(Top(x))), Plus(x, Bit(Top(x))));
    StepLow(x);
  }

  lemma SplitTop(r: bv32, x: bv32)
    ensures Plus(r, x) == Plus(Plus(r, Bit(Top(x))), Plus(x, Bit(Top(x))))
  {
    hide Plus, Top, Bit;
    var t := Bit(Top(x));
    PlusShuffle(r, t, x, t);
    PlusItself(t);
    PlusNothing(Plus(r, x));
  }

  lemma PlusItself(a: bv32)
    ensures Plus(a, a) == 0
  {
  }

  lemma StepLow(x: bv32)
    ensures Step(Plus(x, Bit(Top(x)))) == Twice(x)
  {
    hide Plus, Top, Twice, Bit, When;
    TopCleared(x);
    PlusNothing(Twice(x));
    WhenNot();
  }

  lemma TopCleared(x: bv32)
    ensures !Top(Plus(x, Bit(Top(x)))) && Twice(Plus(x, Bit(Top(x)))) == Twice(x)
  {
    if Top(x) {
      hide Plus, Top, Twice;
      DropTop(x);
    } else {
      PlusNothing(x);
    }
  }

  lemma DropTop(x: bv32)
    ensures Top(x) ==> !Top(Plus(x, TOP))
    ensures Twice(Plus(x, TOP)) == Twice(x)
  {
  }

  lemma WhenNot()
    ensures When(false) == 0
  {
  }

  lemma {:induction false} RegisterAppend(a: P.Poly, b: P.Poly, r: bv32)
    ensures Register(a + b, r) == Register(b, Register(a, r))
    decreases |a|
  {
    hide Plus, Step, Bit;
    if a == [] {
      assert a + b == b;
    } else {
      assert (a + b)[1..] == a[1..] + b;
      RegisterAppend(a[1..], b, Step(Plus(r, Bit(a[0]))));
    }
  }

  lemma PlusNothing(r: bv32)
    ensures Plus(r, 0) == r
  {
  }

  /** The table-driven hash is the hash by single bits. */
  lemma {:induction false} HashByBits(buf: seq<bv8>, init: bv32)
    ensures HashOf(buf, init) == Register(BitsOf(buf), init)
    decreases |buf|
  {
    hide Plus, AtTop, ByByte, Bits, Shift, Steps, Step;
    if buf == [] {
    } else {
      var b := buf[0];
      ByByteIsEightSteps(init, b);
      RegisterOfBits(init, AtTop(b), 8);
      ShiftedOut(0, b);
      PlusNothing(Register(Bits(AtTop(b), 8), init));
      RegisterAppend(Bits(AtTop(b), 8), BitsOf(buf[1..]), init);
      HashByBits(buf[1..], ByByte(init, b));
    }
  }

  lemma TopBits(n: nat)
    ensures Bits(TOP, n + 1) == [true] + P.Zeros(n)
  {
    assert Twice(TOP) == 0;
    ZeroBits(n);
  }

  /** The register with a message bit added to its top, one place longer: it ends in a zero. */
  lemma LongBits(r: bv32)
    ensures Bits(r, 33) == Bits(r, 32) + [false]
    ensures Bits(r, 33) == [Top(r)] + Bits(Twice(r), 32)
  {
    hide Top, Twice;
    ShiftedOut(r, 0);
    BitsSnoc(r, 32);
    TopOfZero();
  }

  lemma TopOfZero()
    ensures !Top(0)
  {
  }

  lemma BitsOfStep(r: bv32)
    ensures Bits(Step(r), 32) == P.Sum(Bits(Twice(r), 32), P.Scaled(Top(r), Bits(POLY, 32)))
  {
    hide Top, Twice, Plus, Bits;
    BitsLinear(Twice(r), When(Top(r)), 32);
    ZeroBits(32);
  }

  lemma BitsOfEntry(r: bv32, b: bool)
    ensures Bits(Plus(r, Bit(b)), 32) == P.Sum(Bits(r, 32), [b] + P.Zeros(31))
  {
    hide Plus, Bits;
    BitsLinear(r, Bit(b), 32);
    TopBits(31);
    ZeroBits(32);
  }

  /** One step of the register is one line of the long division. */
  lemma DividendStep(m: P.Poly, init: bv32)
    requires m != []
    ensures var r := Plus(init, Bit(m[0]));
      Dividend(m, init) == P.Sum(P.Scaled(Top(r), GENERATOR) + P.Zeros(|m| - 1), [false] + Dividend(m[1..], Step(r)))
  {
    hide Top, Twice, Plus, Bits, Step, Bit;
    var r := Plus(init, Bit(m[0]));
    BitsOfEntry(init, m[0]);
    LongBits(r);
    BitsOfStep(r);
    DividendLine(m, Bits(init, 32), Bits(r, 32), Top(r), Bits(Twice(r), 32), Bits(POLY, 32), Bits(Step(r), 32));
  }

  lemma DividendLine(m: P.Poly, init: P.Poly, r: P.Poly, top: bool, twice: P.Poly, g: P.Poly, next: P.Poly)
    requires m != [] && |init| == |r| == |twice| == |g| == |next| == 32
    requires r == P.Sum(init, [m[0]] + P.Zeros(31))
    requires r + [false] == [top] + twice
    requires next == P.Sum(twice, P.Scaled(top, g))
    ensures P.Sum(m + P.Zeros(32), init + P.Zeros(|m|)) ==
      P.Sum(P.Scaled(top, [true] + g) + P.Zeros(|m| - 1),
            [false] + P.Sum(m[1..] + P.Zeros(32), next + P.Zeros(|m| - 1)))
  {
    var rest := P.Sum(m[1..] + P.Zeros(32), next + P.Zeros(|m| - 1));
    var whole := P.Sum(m + P.Zeros(32), init + P.Zeros(|m|));
    var lines := P.Sum(P.Scaled(top, [true] + g) + P.Zeros(|m| - 1), [false] + rest);
    forall k | 0 <= k < |whole| ensures whole[k] == lines[k] {
      if 0 < k {
        assert (m[1..] + P.Zeros(32))[k - 1] == (m + P.Zeros(32))[k];
      }
      if k <= 32 {
        assert (r + [false])[k] == ([top] + twice)[k];
      }
    }
  }

  /** The register that the message leaves is the remainder. */
  lemma {:induction false} RegisterIsRemainder(m: P.Poly, init: bv32)
    ensures P.Remainder(Dividend(m, init), GENERATOR, Bits(Register(m, init), 32))
    decreases |m|
  {
    hide Plus, Bits, Step, Bit, Dividend, P.Quotient;
    if m == [] {
      EmptyMessage(init);
    } else {
      var r := Plus(init, Bit(m[0]));
      DividendStep(m, init);
      RegisterIsRemainder(m[1..], Step(r));
      var left := Bits(Register(m, init), 32);
      var rest := Dividend(m[1..], Step(r));
      var q :| P.Quotient(rest, GENERATOR, q, left);
      QuotientLength(rest, GENERATOR, q, left);
      P.QuotientStep(Dividend(m, init), GENERATOR, q, left, Top(r), rest);
    }
  }

  lemma QuotientLength(d: P.Poly, g: P.Poly, q: P.Poly, r: P.Poly)
    requires P.Quotient(d, g, q, r)
    ensures |g| > 0 && |d| == |q| + |g| - 1
  {
  }

  lemma EmptyMessage(init: bv32)
    ensures P.Quotient(Dividend([], init), GENERATOR, [], Bits(init, 32))
  {
    hide Bits;
    var d, r := Dividend([], init), Bits(init, 32);
    var p := P.Sum(P.Product([], GENERATOR), P.Zeros(0) + r);
    assert forall k | 0 <= k < 32 :: d[k] == r[k] && p[k] == r[k];
  }

  /**
   The hash is the remainder of the division, and nothing else is: a value is the hash of a
   buffer exactly when it is what the polynomial leaves of the message.
  */
  lemma HashIsRemainder(buf: seq<bv8>, init: bv32, crc: bv32)
    ensures HashOf(buf, init) == crc <==>
            P.Remainder(Dividend(BitsOf(buf), init), GENERATOR, Bits(crc, 32))
  {
    hide Bits, Dividend, P.Quotient;
    HashByBits(buf, init);
    RegisterIsRemainder(BitsOf(buf), init);
    var d, hash := Dividend(BitsOf(buf), init), HashOf(buf, init);
    if P.Remainder(d, GENERATOR, Bits(crc, 32)) {
      var q :| P.Quotient(d, GENERATOR, q, Bits(hash, 32));
      var q' :| P.Quotient(d, GENERATOR, q', Bits(crc, 32));
      P.DivisionIsUnique(d, GENERATOR, q, Bits(hash, 32), q', Bits(crc, 32));
      BitsDistinct(hash, crc);
    }
  }
}
