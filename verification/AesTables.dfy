/** The constant tables of the C++ AES, row by row, and what they hold. */
module AesTables {
  import opened AesField

  ghost predicate Square(t: seq<seq<bv8>>) {
    |t| == 16 && forall i :: 0 <= i < 16 ==> |t[i]| == 16
  }

  /** The entry for x: high digit the row, low digit the column. */
  function Look(t: seq<seq<bv8>>, x: bv8): bv8
    requires Square(t)
  {
    t[(x / 16) as int][(x % 16) as int]
  }

  // ---------- the S-box and its inverse ----------

  const Sbox0: seq<bv8> := [0x63, 0x7c, 0x77, 0x7b, 0xf2, 0x6b, 0x6f, 0xc5, 0x30, 0x01, 0x67, 0x2b, 0xfe, 0xd7, 0xab, 0x76]
  const Sbox1: seq<bv8> := [0xca, 0x82, 0xc9, 0x7d, 0xfa, 0x59, 0x47, 0xf0, 0xad, 0xd4, 0xa2, 0xaf, 0x9c, 0xa4, 0x72, 0xc0]
  const Sbox2: seq<bv8> := [0xb7, 0xfd, 0x93, 0x26, 0x36, 0x3f, 0xf7, 0xcc, 0x34, 0xa5, 0xe5, 0xf1, 0x71, 0xd8, 0x31, 0x15]
  const Sbox3: seq<bv8> := [0x04, 0xc7, 0x23, 0xc3, 0x18, 0x96, 0x05, 0x9a, 0x07, 0x12, 0x80, 0xe2, 0xeb, 0x27, 0xb2, 0x75]
  const Sbox4: seq<bv8> := [0x09, 0x83, 0x2c, 0x1a, 0x1b, 0x6e, 0x5a, 0xa0, 0x52, 0x3b, 0xd6, 0xb3, 0x29, 0xe3, 0x2f, 0x84]
  const Sbox5: seq<bv8> := [0x53, 0xd1, 0x00, 0xed, 0x20, 0xfc, 0xb1, 0x5b, 0x6a, 0xcb, 0xbe, 0x39, 0x4a, 0x4c, 0x58, 0xcf]
  const Sbox6: seq<bv8> := [0xd0, 0xef, 0xaa, 0xfb, 0x43, 0x4d, 0x33, 0x85, 0x45, 0xf9, 0x02, 0x7f, 0x50, 0x3c, 0x9f, 0xa8]
  const Sbox7: seq<bv8> := [0x51, 0xa3, 0x40, 0x8f, 0x92, 0x9d, 0x38, 0xf5, 0xbc, 0xb6, 0xda, 0x21, 0x10, 0xff, 0xf3, 0xd2]
  const Sbox8: seq<bv8> := [0xcd, 0x0c, 0x13, 0xec, 0x5f, 0x97, 0x44, 0x17, 0xc4, 0xa7, 0x7e, 0x3d, 0x64, 0x5d, 0x19, 0x73]
  const Sbox9: seq<bv8> := [0x60, 0x81, 0x4f, 0xdc, 0x22, 0x2a, 0x90, 0x88, 0x46, 0xee, 0xb8, 0x14, 0xde, 0x5e, 0x0b, 0xdb]
  const SboxA: seq<bv8> := [0xe0, 0x32, 0x3a, 0x0a, 0x49, 0x06, 0x24, 0x5c, 0xc2, 0xd3, 0xac, 0x62, 0x91, 0x95, 0xe4, 0x79]
  const SboxB: seq<bv8> := [0xe7, 0xc8, 0x37, 0x6d, 0x8d, 0xd5, 0x4e, 0xa9, 0x6c, 0x56, 0xf4, 0xea, 0x65, 0x7a, 0xae, 0x08]
  const SboxC: seq<bv8> := [0xba, 0x78, 0x25, 0x2e, 0x1c, 0xa6, 0xb4, 0xc6, 0xe8, 0xdd, 0x74, 0x1f, 0x4b, 0xbd, 0x8b, 0x8a]
  const SboxD: seq<bv8> := [0x70, 0x3e, 0xb5, 0x66, 0x48, 0x03, 0xf6, 0x0e, 0x61, 0x35, 0x57, 0xb9, 0x86, 0xc1, 0x1d, 0x9e]
  const SboxE: seq<bv8> := [0xe1, 0xf8, 0x98, 0x11, 0x69, 0xd9, 0x8e, 0x94, 0x9b, 0x1e, 0x87, 0xe9, 0xce, 0x55, 0x28, 0xdf]
  const SboxF: seq<bv8> := [0x8c, 0xa1, 0x89, 0x0d, 0xbf, 0xe6, 0x42, 0x68, 0x41, 0x99, 0x2d, 0x0f, 0xb0, 0x54, 0xbb, 0x16]
  const Sbox: seq<seq<bv8>> := [Sbox0, Sbox1, Sbox2, Sbox3, Sbox4, Sbox5, Sbox6, Sbox7, Sbox8, Sbox9, SboxA, SboxB, SboxC, SboxD, SboxE, SboxF]

  const InvSbox0: seq<bv8> := [0x52, 0x09, 0x6a, 0xd5, 0x30, 0x36, 0xa5, 0x38, 0xbf, 0x40, 0xa3, 0x9e, 0x81, 0xf3, 0xd7, 0xfb]
  const InvSbox1: seq<bv8> := [0x7c, 0xe3, 0x39, 0x82, 0x9b, 0x2f, 0xff, 0x87, 0x34, 0x8e, 0x43, 0x44, 0xc4, 0xde, 0xe9, 0xcb]
  const InvSbox2: seq<bv8> := [0x54, 0x7b, 0x94, 0x32, 0xa6, 0xc2, 0x23, 0x3d, 0xee, 0x4c, 0x95, 0x0b, 0x42, 0xfa, 0xc3, 0x4e]
  const InvSbox3: seq<bv8> := [0x08, 0x2e, 0xa1, 0x66, 0x28, 0xd9, 0x24, 0xb2, 0x76, 0x5b, 0xa2, 0x49, 0x6d, 0x8b, 0xd1, 0x25]
  const InvSbox4: seq<bv8> := [0x72, 0xf8, 0xf6, 0x64, 0x86, 0x68, 0x98, 0x16, 0xd4, 0xa4, 0x5c, 0xcc, 0x5d, 0x65, 0xb6, 0x92]
  const InvSbox5: seq<bv8> := [0x6c, 0x70, 0x48, 0x50, 0xfd, 0xed, 0xb9, 0xda, 0x5e, 0x15, 0x46, 0x57, 0xa7, 0x8d, 0x9d, 0x84]
  const InvSbox6: seq<bv8> := [0x90, 0xd8, 0xab, 0x00, 0x8c, 0xbc, 0xd3, 0x0a, 0xf7, 0xe4, 0x58, 0x05, 0xb8, 0xb3, 0x45, 0x06]
  const InvSbox7: seq<bv8> := [0xd0, 0x2c, 0x1e, 0x8f, 0xca, 0x3f, 0x0f, 0x02, 0xc1, 0xaf, 0xbd, 0x03, 0x01, 0x13, 0x8a, 0x6b]
  const InvSbox8: seq<bv8> := [0x3a, 0x91, 0x11, 0x41, 0x4f, 0x67, 0xdc, 0xea, 0x97, 0xf2, 0xcf, 0xce, 0xf0, 0xb4, 0xe6, 0x73]
  const InvSbox9: seq<bv8> := [0x96, 0xac, 0x74, 0x22, 0xe7, 0xad, 0x35, 0x85, 0xe2, 0xf9, 0x37, 0xe8, 0x1c, 0x75, 0xdf, 0x6e]
  const InvSboxA: seq<bv8> := [0x47, 0xf1, 0x1a, 0x71, 0x1d, 0x29, 0xc5, 0x89, 0x6f, 0xb7, 0x62, 0x0e, 0xaa, 0x18, 0xbe, 0x1b]
  const InvSboxB: seq<bv8> := [0xfc, 0x56, 0x3e, 0x4b, 0xc6, 0xd2, 0x79, 0x20, 0x9a, 0xdb, 0xc0, 0xfe, 0x78, 0xcd, 0x5a, 0xf4]
  const InvSboxC: seq<bv8> := [0x1f, 0xdd, 0xa8, 0x33, 0x88, 0x07, 0xc7, 0x31, 0xb1, 0x12, 0x10, 0x59, 0x27, 0x80, 0xec, 0x5f]
  const InvSboxD: seq<bv8> := [0x60, 0x51, 0x7f, 0xa9, 0x19, 0xb5, 0x4a, 0x0d, 0x2d, 0xe5, 0x7a, 0x9f, 0x93, 0xc9, 0x9c, 0xef]
  const InvSboxE: seq<bv8> := [0xa0, 0xe0, 0x3b, 0x4d, 0xae, 0x2a, 0xf5, 0xb0, 0xc8, 0xeb, 0xbb, 0x3c, 0x83, 0x53, 0x99, 0x61]
  const InvSboxF: seq<bv8> := [0x17, 0x2b, 0x04, 0x7e, 0xba, 0x77, 0xd6, 0x26, 0xe1, 0x69, 0x14, 0x63, 0x55, 0x21, 0x0c, 0x7d]
  const InvSbox: seq<seq<bv8>> := [InvSbox0, InvSbox1, InvSbox2, InvSbox3, InvSbox4, InvSbox5, InvSbox6, InvSbox7, InvSbox8, InvSbox9, InvSboxA, InvSboxB, InvSboxC, InvSboxD, InvSboxE, InvSboxF]

  function Sub(x: bv8): bv8 { Look(Sbox, x) }

  function InvSub(x: bv8): bv8 { Look(InvSbox, x) }

  lemma InvSubSub(x: bv8)
    ensures InvSub(Sub(x)) == x
  {
    if x / 16 == 0 {
    } else if x / 16 == 1 {
    } else if x / 16 == 2 {
    } else if x / 16 == 3 {
    } else if x / 16 == 4 {
    } else if x / 16 == 5 {
    } else if x / 16 == 6 {
    } else if x / 16 == 7 {
    } else if x / 16 == 8 {
    } else if x / 16 == 9 {
    } else if x / 16 == 10 {
    } else if x / 16 == 11 {
    } else if x / 16 == 12 {
    } else if x / 16 == 13 {
    } else if x / 16 == 14 {
    }
  }

  lemma SubInvSub(x: bv8)
    ensures Sub(InvSub(x)) == x
  {
    if x / 16 == 0 {
    } else if x / 16 == 1 {
    } else if x / 16 == 2 {
    } else if x / 16 == 3 {
    } else if x / 16 == 4 {
    } else if x / 16 == 5 {
    } else if x / 16 == 6 {
    } else if x / 16 == 7 {
    } else if x / 16 == 8 {
    } else if x / 16 == 9 {
    } else if x / 16 == 10 {
    } else if x / 16 == 11 {
    } else if x / 16 == 12 {
    } else if x / 16 == 13 {
    } else if x / 16 == 14 {
    }
  }

  /** The two tables are inverse permutations of the 256 bytes. */
  lemma SboxInverse(x: bv8)
    ensures InvSub(Sub(x)) == x && Sub(InvSub(x)) == x
  {
    InvSubSub(x);
    SubInvSub(x);
  }

  // ---------- the multiplication tables ----------

  const Times2_0: seq<bv8> := [0x00, 0x02, 0x04, 0x06, 0x08, 0x0a, 0x0c, 0x0e, 0x10, 0x12, 0x14, 0x16, 0x18, 0x1a, 0x1c, 0x1e]
  const Times2_1: seq<bv8> := [0x20, 0x22, 0x24, 0x26, 0x28, 0x2a, 0x2c, 0x2e, 0x30, 0x32, 0x34, 0x36, 0x38, 0x3a, 0x3c, 0x3e]
  const Times2_2: seq<bv8> := [0x40, 0x42, 0x44, 0x46, 0x48, 0x4a, 0x4c, 0x4e, 0x50, 0x52, 0x54, 0x56, 0x58, 0x5a, 0x5c, 0x5e]
  const Times2_3: seq<bv8> := [0x60, 0x62, 0x64, 0x66, 0x68, 0x6a, 0x6c, 0x6e, 0x70, 0x72, 0x74, 0x76, 0x78, 0x7a, 0x7c, 0x7e]
  const Times2_4: seq<bv8> := [0x80, 0x82, 0x84, 0x86, 0x88, 0x8a, 0x8c, 0x8e, 0x90, 0x92, 0x94, 0x96, 0x98, 0x9a, 0x9c, 0x9e]
  const Times2_5: seq<bv8> := [0xa0, 0xa2, 0xa4, 0xa6, 0xa8, 0xaa, 0xac, 0xae, 0xb0, 0xb2, 0xb4, 0xb6, 0xb8, 0xba, 0xbc, 0xbe]
  const Times2_6: seq<bv8> := [0xc0, 0xc2, 0xc4, 0xc6, 0xc8, 0xca, 0xcc, 0xce, 0xd0, 0xd2, 0xd4, 0xd6, 0xd8, 0xda, 0xdc, 0xde]
  const Times2_7: seq<bv8> := [0xe0, 0xe2, 0xe4, 0xe6, 0xe8, 0xea, 0xec, 0xee, 0xf0, 0xf2, 0xf4, 0xf6, 0xf8, 0xfa, 0xfc, 0xfe]
  const Times2_8: seq<bv8> := [0x1b, 0x19, 0x1f, 0x1d, 0x13, 0x11, 0x17, 0x15, 0x0b, 0x09, 0x0f, 0x0d, 0x03, 0x01, 0x07, 0x05]
  const Times2_9: seq<bv8> := [0x3b, 0x39, 0x3f, 0x3d, 0x33, 0x31, 0x37, 0x35, 0x2b, 0x29, 0x2f, 0x2d, 0x23, 0x21, 0x27, 0x25]
  const Times2_A: seq<bv8> := [0x5b, 0x59, 0x5f, 0x5d, 0x53, 0x51, 0x57, 0x55, 0x4b, 0x49, 0x4f, 0x4d, 0x43, 0x41, 0x47, 0x45]
  const Times2_B: seq<bv8> := [0x7b, 0x79, 0x7f, 0x7d, 0x73, 0x71, 0x77, 0x75, 0x6b, 0x69, 0x6f, 0x6d, 0x63, 0x61, 0x67, 0x65]
  const Times2_C: seq<bv8> := [0x9b, 0x99, 0x9f, 0x9d, 0x93, 0x91, 0x97, 0x95, 0x8b, 0x89, 0x8f, 0x8d, 0x83, 0x81, 0x87, 0x85]
  const Times2_D: seq<bv8> := [0xbb, 0xb9, 0xbf, 0xbd, 0xb3, 0xb1, 0xb7, 0xb5, 0xab, 0xa9, 0xaf, 0xad, 0xa3, 0xa1, 0xa7, 0xa5]
  const Times2_E: seq<bv8> := [0xdb, 0xd9, 0xdf, 0xdd, 0xd3, 0xd1, 0xd7, 0xd5, 0xcb, 0xc9, 0xcf, 0xcd, 0xc3, 0xc1, 0xc7, 0xc5]
  const Times2_F: seq<bv8> := [0xfb, 0xf9, 0xff, 0xfd, 0xf3, 0xf1, 0xf7, 0xf5, 0xeb, 0xe9, 0xef, 0xed, 0xe3, 0xe1, 0xe7, 0xe5]
  const Times2: seq<seq<bv8>> := [Times2_0, Times2_1, Times2_2, Times2_3, Times2_4, Times2_5, Times2_6, Times2_7, Times2_8, Times2_9, Times2_A, Times2_B, Times2_C, Times2_D, Times2_E, Times2_F]

  const Times3_0: seq<bv8> := [0x00, 0x03, 0x06, 0x05, 0x0c, 0x0f, 0x0a, 0x09, 0x18, 0x1b, 0x1e, 0x1d, 0x14, 0x17, 0x12, 0x11]
  const Times3_1: seq<bv8> := [0x30, 0x33, 0x36, 0x35, 0x3c, 0x3f, 0x3a, 0x39, 0x28, 0x2b, 0x2e, 0x2d, 0x24, 0x27, 0x22, 0x21]
  const Times3_2: seq<bv8> := [0x60, 0x63, 0x66, 0x65, 0x6c, 0x6f, 0x6a, 0x69, 0x78, 0x7b, 0x7e, 0x7d, 0x74, 0x77, 0x72, 0x71]
  const Times3_3: seq<bv8> := [0x50, 0x53, 0x56, 0x55, 0x5c, 0x5f, 0x5a, 0x59, 0x48, 0x4b, 0x4e, 0x4d, 0x44, 0x47, 0x42, 0x41]
  const Times3_4: seq<bv8> := [0xc0, 0xc3, 0xc6, 0xc5, 0xcc, 0xcf, 0xca, 0xc9, 0xd8, 0xdb, 0xde, 0xdd, 0xd4, 0xd7, 0xd2, 0xd1]
  const Times3_5: seq<bv8> := [0xf0, 0xf3, 0xf6, 0xf5, 0xfc, 0xff, 0xfa, 0xf9, 0xe8, 0xeb, 0xee, 0xed, 0xe4, 0xe7, 0xe2, 0xe1]
  const Times3_6: seq<bv8> := [0xa0, 0xa3, 0xa6, 0xa5, 0xac, 0xaf, 0xaa, 0xa9, 0xb8, 0xbb, 0xbe, 0xbd, 0xb4, 0xb7, 0xb2, 0xb1]
  const Times3_7: seq<bv8> := [0x90, 0x93, 0x96, 0x95, 0x9c, 0x9f, 0x9a, 0x99, 0x88, 0x8b, 0x8e, 0x8d, 0x84, 0x87, 0x82, 0x81]
  const Times3_8: seq<bv8> := [0x9b, 0x98, 0x9d, 0x9e, 0x97, 0x94, 0x91, 0x92, 0x83, 0x80, 0x85, 0x86, 0x8f, 0x8c, 0x89, 0x8a]
  const Times3_9: seq<bv8> := [0xab, 0xa8, 0xad, 0xae, 0xa7, 0xa4, 0xa1, 0xa2, 0xb3, 0xb0, 0xb5, 0xb6, 0xbf, 0xbc, 0xb9, 0xba]
  const Times3_A: seq<bv8> := [0xfb, 0xf8, 0xfd, 0xfe, 0xf7, 0xf4, 0xf1, 0xf2, 0xe3, 0xe0, 0xe5, 0xe6, 0xef, 0xec, 0xe9, 0xea]
  const Times3_B: seq<bv8> := [0xcb, 0xc8, 0xcd, 0xce, 0xc7, 0xc4, 0xc1, 0xc2, 0xd3, 0xd0, 0xd5, 0xd6, 0xdf, 0xdc, 0xd9, 0xda]
  const Times3_C: seq<bv8> := [0x5b, 0x58, 0x5d, 0x5e, 0x57, 0x54, 0x51, 0x52, 0x43, 0x40, 0x45, 0x46, 0x4f, 0x4c, 0x49, 0x4a]
  const Times3_D: seq<bv8> := [0x6b, 0x68, 0x6d, 0x6e, 0x67, 0x64, 0x61, 0x62, 0x73, 0x70, 0x75, 0x76, 0x7f, 0x7c, 0x79, 0x7a]
  const Times3_E: seq<bv8> := [0x3b, 0x38, 0x3d, 0x3e, 0x37, 0x34, 0x31, 0x32, 0x23, 0x20, 0x25, 0x26, 0x2f, 0x2c, 0x29, 0x2a]
  const Times3_F: seq<bv8> := [0x0b, 0x08, 0x0d, 0x0e, 0x07, 0x04, 0x01, 0x02, 0x13, 0x10, 0x15, 0x16, 0x1f, 0x1c, 0x19, 0x1a]
  const Times3: seq<seq<bv8>> := [Times3_0, Times3_1, Times3_2, Times3_3, Times3_4, Times3_5, Times3_6, Times3_7, Times3_8, Times3_9, Times3_A, Times3_B, Times3_C, Times3_D, Times3_E, Times3_F]

  const Times9_0: seq<bv8> := [0x00, 0x09, 0x12, 0x1b, 0x24, 0x2d, 0x36, 0x3f, 0x48, 0x41, 0x5a, 0x53, 0x6c, 0x65, 0x7e, 0x77]
  const Times9_1: seq<bv8> := [0x90, 0x99, 0x82, 0x8b, 0xb4, 0xbd, 0xa6, 0xaf, 0xd8, 0xd1, 0xca, 0xc3, 0xfc, 0xf5, 0xee, 0xe7]
  const Times9_2: seq<bv8> := [0x3b, 0x32, 0x29, 0x20, 0x1f, 0x16, 0x0d, 0x04, 0x73, 0x7a, 0x61, 0x68, 0x57, 0x5e, 0x45, 0x4c]
  const Times9_3: seq<bv8> := [0xab, 0xa2, 0xb9, 0xb0, 0x8f, 0x86, 0x9d, 0x94, 0xe3, 0xea, 0xf1, 0xf8, 0xc7, 0xce, 0xd5, 0xdc]
  const Times9_4: seq<bv8> := [0x76, 0x7f, 0x64, 0x6d, 0x52, 0x5b, 0x40, 0x49, 0x3e, 0x37, 0x2c, 0x25, 0x1a, 0x13, 0x08, 0x01]
  const Times9_5: seq<bv8> := [0xe6, 0xef, 0xf4, 0xfd, 0xc2, 0xcb, 0xd0, 0xd9, 0xae, 0xa7, 0xbc, 0xb5, 0x8a, 0x83, 0x98, 0x91]
  const Times9_6: seq<bv8> := [0x4d, 0x44, 0x5f, 0x56, 0x69, 0x60, 0x7b, 0x72, 0x05, 0x0c, 0x17, 0x1e, 0x21, 0x28, 0x33, 0x3a]
  const Times9_7: seq<bv8> := [0xdd, 0xd4, 0xcf, 0xc6, 0xf9, 0xf0, 0xeb, 0xe2, 0x95, 0x9c, 0x87, 0x8e, 0xb1, 0xb8, 0xa3, 0xaa]
  const Times9_8: seq<bv8> := [0xec, 0xe5, 0xfe, 0xf7, 0xc8, 0xc1, 0xda, 0xd3, 0xa4, 0xad, 0xb6, 0xbf, 0x80, 0x89, 0x92, 0x9b]
  const Times9_9: seq<bv8> := [0x7c, 0x75, 0x6e, 0x67, 0x58, 0x51, 0x4a, 0x43, 0x34, 0x3d, 0x26, 0x2f, 0x10, 0x19, 0x02, 0x0b]
  const Times9_A: seq<bv8> := [0xd7, 0xde, 0xc5, 0xcc, 0xf3, 0xfa, 0xe1, 0xe8, 0x9f, 0x96, 0x8d, 0x84, 0xbb, 0xb2, 0xa9, 0xa0]
  const Times9_B: seq<bv8> := [0x47, 0x4e, 0x55, 0x5c, 0x63, 0x6a, 0x71, 0x78, 0x0f, 0x06, 0x1d, 0x14, 0x2b, 0x22, 0x39, 0x30]
  const Times9_C: seq<bv8> := [0x9a, 0x93, 0x88, 0x81, 0xbe, 0xb7, 0xac, 0xa5, 0xd2, 0xdb, 0xc0, 0xc9, 0xf6, 0xff, 0xe4, 0xed]
  const Times9_D: seq<bv8> := [0x0a, 0x03, 0x18, 0x11, 0x2e, 0x27, 0x3c, 0x35, 0x42, 0x4b, 0x50, 0x59, 0x66, 0x6f, 0x74, 0x7d]
  const Times9_E: seq<bv8> := [0xa1, 0xa8, 0xb3, 0xba, 0x85, 0x8c, 0x97, 0x9e, 0xe9, 0xe0, 0xfb, 0xf2, 0xcd, 0xc4, 0xdf, 0xd6]
  const Times9_F: seq<bv8> := [0x31, 0x38, 0x23, 0x2a, 0x15, 0x1c, 0x07, 0x0e, 0x79, 0x70, 0x6b, 0x62, 0x5d, 0x54, 0x4f, 0x46]
  const Times9: seq<seq<bv8>> := [Times9_0, Times9_1, Times9_2, Times9_3, Times9_4, Times9_5, Times9_6, Times9_7, Times9_8, Times9_9, Times9_A, Times9_B, Times9_C, Times9_D, Times9_E, Times9_F]

  const Times11_0: seq<bv8> := [0x00, 0x0b, 0x16, 0x1d, 0x2c, 0x27, 0x3a, 0x31, 0x58, 0x53, 0x4e, 0x45, 0x74, 0x7f, 0x62, 0x69]
  const Times11_1: seq<bv8> := [0xb0, 0xbb, 0xa6, 0xad, 0x9c, 0x97, 0x8a, 0x81, 0xe8, 0xe3, 0xfe, 0xf5, 0xc4, 0xcf, 0xd2, 0xd9]
  const Times11_2: seq<bv8> := [0x7b, 0x70, 0x6d, 0x66, 0x57, 0x5c, 0x41, 0x4a, 0x23, 0x28, 0x35, 0x3e, 0x0f, 0x04, 0x19, 0x12]
  const Times11_3: seq<bv8> := [0xcb, 0xc0, 0xdd, 0xd6, 0xe7, 0xec, 0xf1, 0xfa, 0x93, 0x98, 0x85, 0x8e, 0xbf, 0xb4, 0xa9, 0xa2]
  const Times11_4: seq<bv8> := [0xf6, 0xfd, 0xe0, 0xeb, 0xda, 0xd1, 0xcc, 0xc7, 0xae, 0xa5, 0xb8, 0xb3, 0x82, 0x89, 0x94, 0x9f]
  const Times11_5: seq<bv8> := [0x46, 0x4d, 0x50, 0x5b, 0x6a, 0x61, 0x7c, 0x77, 0x1e, 0x15, 0x08, 0x03, 0x32, 0x39, 0x24, 0x2f]
  const Times11_6: seq<bv8> := [0x8d, 0x86, 0x9b, 0x90, 0xa1, 0xaa, 0xb7, 0xbc, 0xd5, 0xde, 0xc3, 0xc8, 0xf9, 0xf2, 0xef, 0xe4]
  const Times11_7: seq<bv8> := [0x3d, 0x36, 0x2b, 0x20, 0x11, 0x1a, 0x07, 0x0c, 0x65, 0x6e, 0x73, 0x78, 0x49, 0x42, 0x5f, 0x54]
  const Times11_8: seq<bv8> := [0xf7, 0xfc, 0xe1, 0xea, 0xdb, 0xd0, 0xcd, 0xc6, 0xaf, 0xa4, 0xb9, 0xb2, 0x83, 0x88, 0x95, 0x9e]
  const Times11_9: seq<bv8> := [0x47, 0x4c, 0x51, 0x5a, 0x6b, 0x60, 0x7d, 0x76, 0x1f, 0x14, 0x09, 0x02, 0x33, 0x38, 0x25, 0x2e]
  const Times11_A: seq<bv8> := [0x8c, 0x87, 0x9a, 0x91, 0xa0, 0xab, 0xb6, 0xbd, 0xd4, 0xdf, 0xc2, 0xc9, 0xf8, 0xf3, 0xee, 0xe5]
  const Times11_B: seq<bv8> := [0x3c, 0x37, 0x2a, 0x21, 0x10, 0x1b, 0x06, 0x0d, 0x64, 0x6f, 0x72, 0x79, 0x48, 0x43, 0x5e, 0x55]
  const Times11_C: seq<bv8> := [0x01, 0x0a, 0x17, 0x1c, 0x2d, 0x26, 0x3b, 0x30, 0x59, 0x52, 0x4f, 0x44, 0x75, 0x7e, 0x63, 0x68]
  const Times11_D: seq<bv8> := [0xb1, 0xba, 0xa7, 0xac, 0x9d, 0x96, 0x8b, 0x80, 0xe9, 0xe2, 0xff, 0xf4, 0xc5, 0xce, 0xd3, 0xd8]
  const Times11_E: seq<bv8> := [0x7a, 0x71, 0x6c, 0x67, 0x56, 0x5d, 0x40, 0x4b, 0x22, 0x29, 0x34, 0x3f, 0x0e, 0x05, 0x18, 0x13]
  const Times11_F: seq<bv8> := [0xca, 0xc1, 0xdc, 0xd7, 0xe6, 0xed, 0xf0, 0xfb, 0x92, 0x99, 0x84, 0x8f, 0xbe, 0xb5, 0xa8, 0xa3]
  const Times11: seq<seq<bv8>> := [Times11_0, Times11_1, Times11_2, Times11_3, Times11_4, Times11_5, Times11_6, Times11_7, Times11_8, Times11_9, Times11_A, Times11_B, Times11_C, Times11_D, Times11_E, Times11_F]

  const Times13_0: seq<bv8> := [0x00, 0x0d, 0x1a, 0x17, 0x34, 0x39, 0x2e, 0x23, 0x68, 0x65, 0x72, 0x7f, 0x5c, 0x51, 0x46, 0x4b]
  const Times13_1: seq<bv8> := [0xd0, 0xdd, 0xca, 0xc7, 0xe4, 0xe9, 0xfe, 0xf3, 0xb8, 0xb5, 0xa2, 0xaf, 0x8c, 0x81, 0x96, 0x9b]
  const Times13_2: seq<bv8> := [0xbb, 0xb6, 0xa1, 0xac, 0x8f, 0x82, 0x95, 0x98, 0xd3, 0xde, 0xc9, 0xc4, 0xe7, 0xea, 0xfd, 0xf0]
  const Times13_3: seq<bv8> := [0x6b, 0x66, 0x71, 0x7c, 0x5f, 0x52, 0x45, 0x48, 0x03, 0x0e, 0x19, 0x14, 0x37, 0x3a, 0x2d, 0x20]
  const Times13_4: seq<bv8> := [0x6d, 0x60, 0x77, 0x7a, 0x59, 0x54, 0x43, 0x4e, 0x05, 0x08, 0x1f, 0x12, 0x31, 0x3c, 0x2b, 0x26]
  const Times13_5: seq<bv8> := [0xbd, 0xb0, 0xa7, 0xaa, 0x89, 0x84, 0x93, 0x9e, 0xd5, 0xd8, 0xcf, 0xc2, 0xe1, 0xec, 0xfb, 0xf6]
  const Times13_6: seq<bv8> := [0xd6, 0xdb, 0xcc, 0xc1, 0xe2, 0xef, 0xf8, 0xf5, 0xbe, 0xb3, 0xa4, 0xa9, 0x8a, 0x87, 0x90, 0x9d]
  const Times13_7: seq<bv8> := [0x06, 0x0b, 0x1c, 0x11, 0x32, 0x3f, 0x28, 0x25, 0x6e, 0x63, 0x74, 0x79, 0x5a, 0x57, 0x40, 0x4d]
  const Times13_8: seq<bv8> := [0xda, 0xd7, 0xc0, 0xcd, 0xee, 0xe3, 0xf4, 0xf9, 0xb2, 0xbf, 0xa8, 0xa5, 0x86, 0x8b, 0x9c, 0x91]
  const Times13_9: seq<bv8> := [0x0a, 0x07, 0x10, 0x1d, 0x3e, 0x33, 0x24, 0x29, 0x62, 0x6f, 0x78, 0x75, 0x56, 0x5b, 0x4c, 0x41]
  const Times13_A: seq<bv8> := [0x61, 0x6c, 0x7b, 0x76, 0x55, 0x58, 0x4f, 0x42, 0x09, 0x04, 0x13, 0x1e, 0x3d, 0x30, 0x27, 0x2a]
  const Times13_B: seq<bv8> := [0xb1, 0xbc, 0xab, 0xa6, 0x85, 0x88, 0x9f, 0x92, 0xd9, 0xd4, 0xc3, 0xce, 0xed, 0xe0, 0xf7, 0xfa]
  const Times13_C: seq<bv8> := [0xb7, 0xba, 0xad, 0xa0, 0x83, 0x8e, 0x99, 0x94, 0xdf, 0xd2, 0xc5, 0xc8, 0xeb, 0xe6, 0xf1, 0xfc]
  const Times13_D: seq<bv8> := [0x67, 0x6a, 0x7d, 0x70, 0x53, 0x5e, 0x49, 0x44, 0x0f, 0x02, 0x15, 0x18, 0x3b, 0x36, 0x21, 0x2c]
  const Times13_E: seq<bv8> := [0x0c, 0x01, 0x16, 0x1b, 0x38, 0x35, 0x22, 0x2f, 0x64, 0x69, 0x7e, 0x73, 0x50, 0x5d, 0x4a, 0x47]
  const Times13_F: seq<bv8> := [0xdc, 0xd1, 0xc6, 0xcb, 0xe8, 0xe5, 0xf2, 0xff, 0xb4, 0xb9, 0xae, 0xa3, 0x80, 0x8d, 0x9a, 0x97]
  const Times13: seq<seq<bv8>> := [Times13_0, Times13_1, Times13_2, Times13_3, Times13_4, Times13_5, Times13_6, Times13_7, Times13_8, Times13_9, Times13_A, Times13_B, Times13_C, Times13_D, Times13_E, Times13_F]

  const Times14_0: seq<bv8> := [0x00, 0x0e, 0x1c, 0x12, 0x38, 0x36, 0x24, 0x2a, 0x70, 0x7e, 0x6c, 0x62, 0x48, 0x46, 0x54, 0x5a]
  const Times14_1: seq<bv8> := [0xe0, 0xee, 0xfc, 0xf2, 0xd8, 0xd6, 0xc4, 0xca, 0x90, 0x9e, 0x8c, 0x82, 0xa8, 0xa6, 0xb4, 0xba]
  const Times14_2: seq<bv8> := [0xdb, 0xd5, 0xc7, 0xc9, 0xe3, 0xed, 0xff, 0xf1, 0xab, 0xa5, 0xb7, 0xb9, 0x93, 0x9d, 0x8f, 0x81]
  const Times14_3: seq<bv8> := [0x3b, 0x35, 0x27, 0x29, 0x03, 0x0d, 0x1f, 0x11, 0x4b, 0x45, 0x57, 0x59, 0x73, 0x7d, 0x6f, 0x61]
  const Times14_4: seq<bv8> := [0xad, 0xa3, 0xb1, 0xbf, 0x95, 0x9b, 0x89, 0x87, 0xdd, 0xd3, 0xc1, 0xcf, 0xe5, 0xeb, 0xf9, 0xf7]
  const Times14_5: seq<bv8> := [0x4d, 0x43, 0x51, 0x5f, 0x75, 0x7b, 0x69, 0x67, 0x3d, 0x33, 0x21, 0x2f, 0x05, 0x0b, 0x19, 0x17]
  const Times14_6: seq<bv8> := [0x76, 0x78, 0x6a, 0x64, 0x4e, 0x40, 0x52, 0x5c, 0x06, 0x08, 0x1a, 0x14, 0x3e, 0x30, 0x22, 0x2c]
  const Times14_7: seq<bv8> := [0x96, 0x98, 0x8a, 0x84, 0xae, 0xa0, 0xb2, 0xbc, 0xe6, 0xe8, 0xfa, 0xf4, 0xde, 0xd0, 0xc2, 0xcc]
  const Times14_8: seq<bv8> := [0x41, 0x4f, 0x5d, 0x53, 0x79, 0x77, 0x65, 0x6b, 0x31, 0x3f, 0x2d, 0x23, 0x09, 0x07, 0x15, 0x1b]
  const Times14_9: seq<bv8> := [0xa1, 0xaf, 0xbd, 0xb3, 0x99, 0x97, 0x85, 0x8b, 0xd1, 0xdf, 0xcd, 0xc3, 0xe9, 0xe7, 0xf5, 0xfb]
  const Times14_A: seq<bv8> := [0x9a, 0x94, 0x86, 0x88, 0xa2, 0xac, 0xbe, 0xb0, 0xea, 0xe4, 0xf6, 0xf8, 0xd2, 0xdc, 0xce, 0xc0]
  const Times14_B: seq<bv8> := [0x7a, 0x74, 0x66, 0x68, 0x42, 0x4c, 0x5e, 0x50, 0x0a, 0x04, 0x16, 0x18, 0x32, 0x3c, 0x2e, 0x20]
  const Times14_C: seq<bv8> := [0xec, 0xe2, 0xf0, 0xfe, 0xd4, 0xda, 0xc8, 0xc6, 0x9c, 0x92, 0x80, 0x8e, 0xa4, 0xaa, 0xb8, 0xb6]
  const Times14_D: seq<bv8> := [0x0c, 0x02, 0x10, 0x1e, 0x34, 0x3a, 0x28, 0x26, 0x7c, 0x72, 0x60, 0x6e, 0x44, 0x4a, 0x58, 0x56]
  const Times14_E: seq<bv8> := [0x37, 0x39, 0x2b, 0x25, 0x0f, 0x01, 0x13, 0x1d, 0x47, 0x49, 0x5b, 0x55, 0x7f, 0x71, 0x63, 0x6d]
  const Times14_F: seq<bv8> := [0xd7, 0xd9, 0xcb, 0xc5, 0xef, 0xe1, 0xf3, 0xfd, 0xa7, 0xa9, 0xbb, 0xb5, 0x9f, 0x91, 0x83, 0x8d]
  const Times14: seq<seq<bv8>> := [Times14_0, Times14_1, Times14_2, Times14_3, Times14_4, Times14_5, Times14_6, Times14_7, Times14_8, Times14_9, Times14_A, Times14_B, Times14_C, Times14_D, Times14_E, Times14_F]

  lemma Table2(x: bv8)
    ensures Look(Times2, x) == Xtime(x)
  {
    if x / 16 == 0 {
    } else if x / 16 == 1 {
    } else if x / 16 == 2 {
    } else if x / 16 == 3 {
    } else if x / 16 == 4 {
    } else if x / 16 == 5 {
    } else if x / 16 == 6 {
    } else if x / 16 == 7 {
    } else if x / 16 == 8 {
    } else if x / 16 == 9 {
    } else if x / 16 == 10 {
    } else if x / 16 == 11 {
    } else if x / 16 == 12 {
    } else if x / 16 == 13 {
    } else if x / 16 == 14 {
    }
  }

  lemma Table3(x: bv8)
    ensures Look(Times3, x) == x ^ Xtime(x)
  {
    if x / 16 == 0 {
    } else if x / 16 == 1 {
    } else if x / 16 == 2 {
    } else if x / 16 == 3 {
    } else if x / 16 == 4 {
    } else if x / 16 == 5 {
    } else if x / 16 == 6 {
    } else if x / 16 == 7 {
    } else if x / 16 == 8 {
    } else if x / 16 == 9 {
    } else if x / 16 == 10 {
    } else if x / 16 == 11 {
    } else if x / 16 == 12 {
    } else if x / 16 == 13 {
    } else if x / 16 == 14 {
    }
  }

  lemma Table9(x: bv8)
    ensures Look(Times9, x) == x ^ Xtime(Xtime(Xtime(x)))
  {
    if x / 16 == 0 {
    } else if x / 16 == 1 {
    } else if x / 16 == 2 {
    } else if x / 16 == 3 {
    } else if x / 16 == 4 {
    } else if x / 16 == 5 {
    } else if x / 16 == 6 {
    } else if x / 16 == 7 {
    } else if x / 16 == 8 {
    } else if x / 16 == 9 {
    } else if x / 16 == 10 {
    } else if x / 16 == 11 {
    } else if x / 16 == 12 {
    } else if x / 16 == 13 {
    } else if x / 16 == 14 {
    }
  }

  lemma Table11(x: bv8)
    ensures Look(Times11, x) == x ^ (Xtime(x) ^ Xtime(Xtime(Xtime(x))))
  {
    if x / 16 == 0 {
    } else if x / 16 == 1 {
    } else if x / 16 == 2 {
    } else if x / 16 == 3 {
    } else if x / 16 == 4 {
    } else if x / 16 == 5 {
    } else if x / 16 == 6 {
    } else if x / 16 == 7 {
    } else if x / 16 == 8 {
    } else if x / 16 == 9 {
    } else if x / 16 == 10 {
    } else if x / 16 == 11 {
    } else if x / 16 == 12 {
    } else if x / 16 == 13 {
    } else if x / 16 == 14 {
    }
  }

  lemma Table13(x: bv8)
    ensures Look(Times13, x) == x ^ (Xtime(Xtime(x)) ^ Xtime(Xtime(Xtime(x))))
  {
    if x / 16 == 0 {
    } else if x / 16 == 1 {
    } else if x / 16 == 2 {
    } else if x / 16 == 3 {
    } else if x / 16 == 4 {
    } else if x / 16 == 5 {
    } else if x / 16 == 6 {
    } else if x / 16 == 7 {
    } else if x / 16 == 8 {
    } else if x / 16 == 9 {
    } else if x / 16 == 10 {
    } else if x / 16 == 11 {
    } else if x / 16 == 12 {
    } else if x / 16 == 13 {
    } else if x / 16 == 14 {
    }
  }

  lemma Table14(x: bv8)
    ensures Look(Times14, x) == Xtime(x) ^ (Xtime(Xtime(x)) ^ Xtime(Xtime(Xtime(x))))
  {
    if x / 16 == 0 {
    } else if x / 16 == 1 {
    } else if x / 16 == 2 {
    } else if x / 16 == 3 {
    } else if x / 16 == 4 {
    } else if x / 16 == 5 {
    } else if x / 16 == 6 {
    } else if x / 16 == 7 {
    } else if x / 16 == 8 {
    } else if x / 16 == 9 {
    } else if x / 16 == 10 {
    } else if x / 16 == 11 {
    } else if x / 16 == 12 {
    } else if x / 16 == 13 {
    } else if x / 16 == 14 {
    }
  }

  /** Every filled row of the multiplication table is multiplication in the field. */
  lemma TablesMultiply(x: bv8)
    ensures Look(Times2, x) == GfMul(2, x) && Look(Times3, x) == GfMul(3, x)
    ensures Look(Times9, x) == GfMul(9, x) && Look(Times11, x) == GfMul(11, x)
    ensures Look(Times13, x) == GfMul(13, x) && Look(Times14, x) == GfMul(14, x)
  {
    Table2(x);
    Table3(x);
    Table9(x);
    Table11(x);
    Table13(x);
    Table14(x);
    Mul2(x);
    Mul3(x);
    Mul9(x);
    Mul11(x);
    Mul13(x);
    Mul14(x);
  }
}
