/** The gate-level S-box and inverse S-box against the tables. U0 is the most significant
    bit of the input, S0 of the output.
 */
module AesSbox {
  import opened AesTables
  import opened AesNets

  /** The 113 gates of the S-box. */
  function SboxGates(U0: bool, U1: bool, U2: bool, U3: bool, U4: bool, U5: bool, U6: bool, U7: bool): bv8 {
    var y14 := U3 != U5; var y13 := U0 != U6; var y9 := U0 != U3; var y8 := U0 != U5; var t0 := U1 != U2;
    var y1 := t0 != U7; var y4 := y1 != U3; var y12 := y13 != y14; var y2 := y1 != U0; var y5 := y1 != U6;
    var y3 := y5 != y8; var t1 := U4 != y12; var y15 := t1 != U5; var y20 := t1 != U1; var y6 := y15 != U7;
    var y10 := y15 != t0; var y11 := y20 != y9; var y7 := U7 != y11; var y17 := y10 != y11; var y19 := y10 != y8;
    var y16 := t0 != y11; var y21 := y13 != y16; var y18 := U0 != y16; var t2 := y12 && y15; var t3 := y3 && y6;
    var t4 := t3 != t2; var t5 := y4 && U7; var t6 := t5 != t2; var t7 := y13 && y16; var t8 := y5 && y1;
    var t9 := t8 != t7; var t10 := y2 && y7; var t11 := t10 != t7; var t12 := y9 && y11; var t13 := y14 && y17;
    var t14 := t13 != t12; var t15 := y8 && y10; var t16 := t15 != t12; var t17 := t4 != y20; var t18 := t6 != t16;
    var t19 := t9 != t14; var t20 := t11 != t16; var t21 := t17 != t14; var t22 := t18 != y19;
    var t23 := t19 != y21; var t24 := t20 != y18; var t25 := t21 != t22; var t26 := t21 && t23;
    var t27 := t24 != t26; var t28 := t25 && t27; var t29 := t28 != t22; var t30 := t23 != t24;
    var t31 := t22 != t26; var t32 := t31 && t30; var t33 := t32 != t24; var t34 := t23 != t33;
    var t35 := t27 != t33; var t36 := t24 && t35; var t37 := t36 != t34; var t38 := t27 != t36;
    var t39 := t29 && t38; var t40 := t25 != t39; var t41 := t40 != t37; var t42 := t29 != t33;
    var t43 := t29 != t40; var t44 := t33 != t37; var t45 := t42 != t41; var z0 := t44 && y15; var z1 := t37 && y6;
    var z2 := t33 && U7; var z3 := t43 && y16; var z4 := t40 && y1; var z5 := t29 && y7; var z6 := t42 && y11;
    var z7 := t45 && y17; var z8 := t41 && y10; var z9 := t44 && y12; var z10 := t37 && y3; var z11 := t33 && y4;
    var z12 := t43 && y13; var z13 := t40 && y5; var z14 := t29 && y2; var z15 := t42 && y9; var z16 := t45 && y14;
    var z17 := t41 && y8; var tc1 := z15 != z16; var tc2 := z10 != tc1; var tc3 := z9 != tc2; var tc4 := z0 != z2;
    var tc5 := z1 != z0; var tc6 := z3 != z4; var tc7 := z12 != tc4; var tc8 := z7 != tc6; var tc9 := z8 != tc7;
    var tc10 := tc8 != tc9; var tc11 := tc6 != tc5; var tc12 := z3 != z5; var tc13 := z13 != tc1;
    var tc14 := tc4 != tc12; var S3 := tc3 != tc11; var tc16 := z6 != tc8; var tc17 := z14 != tc10;
    var tc18 := (!tc13) != tc14; var S7 := z12 != tc18; var tc20 := z15 != tc16; var tc21 := tc2 != z11;
    var S0 := tc3 != tc16; var S6 := tc10 != tc18; var S4 := tc14 != S3; var S1 := !(S3 != tc16);
    var tc26 := tc17 != tc20; var S2 := !(tc26 != z17); var S5 := tc21 != tc17;
    ToByte(S0, S1, S2, S3, S4, S5, S6, S7)
  }

  /** The 121 gates of the inverse S-box. */
  function InvSboxGates(U0: bool, U1: bool, U2: bool, U3: bool, U4: bool, U5: bool, U6: bool, U7: bool): bv8 {
    var Y0 := U0 != U3; var Y2 := (!U1) != U3; var Y4 := U0 != Y2; var RTL0 := U6 != U7; var Y1 := Y2 != RTL0;
    var Y7 := (!U2) != Y1; var RTL1 := U3 != U4; var Y6 := (!U7) != RTL1; var Y3 := Y1 != RTL1;
    var RTL2 := U0 != (!U2); var Y5 := U5 != RTL2; var sa1 := Y0 != Y2; var sa0 := Y1 != Y3; var sb1 := Y4 != Y6;
    var sb0 := Y5 != Y7; var ah := Y0 != Y1; var al := Y2 != Y3; var aa := sa0 != sa1; var bh := Y4 != Y5;
    var bl := Y6 != Y7; var bb := sb0 != sb1; var ab20 := sa0 != sb0; var ab22 := al != bl; var ab23 := Y3 != Y7;
    var ab21 := sa1 != sb1; var abcd1 := ah && bh; var rr1 := Y0 && Y4; var ph11 := ab20 != abcd1;
    var t01 := Y1 && Y5; var ph01 := t01 != abcd1; var abcd2 := al && bl; var r1 := Y2 && Y6;
    var pl11 := ab22 != abcd2; var r2 := Y3 && Y7; var pl01 := r2 != abcd2; var r3 := sa0 && sb0;
    var vr1 := aa && bb; var pr1 := vr1 != r3; var wr1 := sa1 && sb1; var qr1 := wr1 != r3; var ab0 := ph11 != rr1;
    var ab1 := ph01 != ab21; var ab2 := pl11 != r1; var ab3 := pl01 != qr1; var cp1 := ab0 != pr1;
    var cp2 := ab1 != qr1; var cp3 := ab2 != pr1; var cp4 := ab3 != ab23; var tinv1 := cp3 != cp4;
    var tinv2 := cp3 && cp1; var tinv3 := cp2 != tinv2; var tinv4 := cp1 != cp2; var tinv5 := cp4 != tinv2;
    var tinv6 := tinv5 && tinv4; var tinv7 := tinv3 && tinv1; var d2 := cp4 != tinv7; var d0 := cp2 != tinv6;
    var tinv8 := cp1 && cp4; var tinv9 := tinv4 && tinv8; var tinv10 := tinv4 != tinv2; var d1 := tinv9 != tinv10;
    var tinv11 := cp2 && cp3; var tinv12 := tinv1 && tinv11; var tinv13 := tinv1 != tinv2;
    var d3 := tinv12 != tinv13; var sd1 := d1 != d3; var sd0 := d0 != d2; var dl := d0 != d1; var dh := d2 != d3;
    var dd := sd0 != sd1; var abcd3 := dh && bh; var rr2 := d3 && Y4; var t02 := d2 && Y5; var abcd4 := dl && bl;
    var r4 := d1 && Y6; var r5 := d0 && Y7; var r6 := sd0 && sb0; var vr2 := dd && bb; var wr2 := sd1 && sb1;
    var abcd5 := dh && ah; var r7 := d3 && Y0; var r8 := d2 && Y1; var abcd6 := dl && al; var r9 := d1 && Y2;
    var r10 := d0 && Y3; var r11 := sd0 && sa0; var vr3 := dd && aa; var wr3 := sd1 && sa1;
    var ph12 := rr2 != abcd3; var ph02 := t02 != abcd3; var pl12 := r4 != abcd4; var pl02 := r5 != abcd4;
    var pr2 := vr2 != r6; var qr2 := wr2 != r6; var p0 := ph12 != pr2; var p1 := ph02 != qr2;
    var p2 := pl12 != pr2; var p3 := pl02 != qr2; var ph13 := r7 != abcd5; var ph03 := r8 != abcd5;
    var pl13 := r9 != abcd6; var pl03 := r10 != abcd6; var pr3 := vr3 != r11; var qr3 := wr3 != r11;
    var p4 := ph13 != pr3; var S7 := ph03 != qr3; var p6 := pl13 != pr3; var p7 := pl03 != qr3; var S3 := p1 != p6;
    var S6 := p2 != p6; var S0 := p3 != p6; var X11 := p0 != p2; var S5 := S0 != X11; var X13 := p4 != p7;
    var X14 := X11 != X13; var S1 := S3 != X14; var X16 := p1 != S7; var S2 := X14 != X16; var X18 := p0 != p4;
    var X19 := S5 != X16; var S4 := X18 != X19;
    ToByte(S0, S1, S2, S3, S4, S5, S6, S7)
  }

  function SboxModule(num: bv8): bv8 {
    SboxGates(BitOf(num, 7), BitOf(num, 6), BitOf(num, 5), BitOf(num, 4), BitOf(num, 3), BitOf(num, 2), BitOf(num, 1), BitOf(num, 0))
  }

  function InvSboxModule(num: bv8): bv8 {
    InvSboxGates(BitOf(num, 7), BitOf(num, 6), BitOf(num, 5), BitOf(num, 4), BitOf(num, 3), BitOf(num, 2), BitOf(num, 1), BitOf(num, 0))
  }

  /** The element four bits choose. */
  function Pick<T>(row: seq<T>, d: bool, c: bool, b: bool, a: bool): T
    requires |row| == 16
  {
    if d then
      if c then if b then if a then row[15] else row[14] else if a then row[13] else row[12]
      else if b then if a then row[11] else row[10] else if a then row[9] else row[8]
    else
      if c then if b then if a then row[7] else row[6] else if a then row[5] else row[4]
      else if b then if a then row[3] else row[2] else if a then row[1] else row[0]
  }

  lemma LookPick(t: seq<seq<bv8>>, x: bv8)
    requires Square(t)
    ensures Look(t, x) == Pick(Pick(t, BitOf(x, 7), BitOf(x, 6), BitOf(x, 5), BitOf(x, 4)), BitOf(x, 3), BitOf(x, 2), BitOf(x, 1), BitOf(x, 0))
  {
  }

  lemma SubPick(x: bv8)
    ensures Sub(x) == Pick(Pick(Sbox, BitOf(x, 7), BitOf(x, 6), BitOf(x, 5), BitOf(x, 4)), BitOf(x, 3), BitOf(x, 2), BitOf(x, 1), BitOf(x, 0))
  {
    LookPick(Sbox, x);
  }

  lemma InvSubPick(x: bv8)
    ensures InvSub(x) == Pick(Pick(InvSbox, BitOf(x, 7), BitOf(x, 6), BitOf(x, 5), BitOf(x, 4)), BitOf(x, 3), BitOf(x, 2), BitOf(x, 1), BitOf(x, 0))
  {
    LookPick(InvSbox, x);
  }

  // ---------- the S-box, one row of the table at a time ----------

  lemma Row0(d: bool, c: bool, b: bool, a: bool)
    ensures SboxGates(false, false, false, false, d, c, b, a) == Pick(Sbox[0], d, c, b, a)
  {
    assert Pick(Sbox[0], d, c, b, a) ==
      if d then (if c then (if b then if a then 0x76 else 0xab else if a then 0xd7 else 0xfe) else (if b then if a then 0x2b else 0x67 else if a then 0x01 else 0x30))
      else (if c then (if b then if a then 0xc5 else 0x6f else if a then 0x6b else 0xf2) else (if b then if a then 0x7b else 0x77 else if a then 0x7c else 0x63));
  }

  lemma Row1(d: bool, c: bool, b: bool, a: bool)
    ensures SboxGates(false, false, false, true, d, c, b, a) == Pick(Sbox[1], d, c, b, a)
  {
    assert Pick(Sbox[1], d, c, b, a) ==
      if d then (if c then (if b then if a then 0xc0 else 0x72 else if a then 0xa4 else 0x9c) else (if b then if a then 0xaf else 0xa2 else if a then 0xd4 else 0xad))
      else (if c then (if b then if a then 0xf0 else 0x47 else if a then 0x59 else 0xfa) else (if b then if a then 0x7d else 0xc9 else if a then 0x82 else 0xca));
  }

  lemma Row2(d: bool, c: bool, b: bool, a: bool)
    ensures SboxGates(false, false, true, false, d, c, b, a) == Pick(Sbox[2], d, c, b, a)
  {
    assert Pick(Sbox[2], d, c, b, a) ==
      if d then (if c then (if b then if a then 0x15 else 0x31 else if a then 0xd8 else 0x71) else (if b then if a then 0xf1 else 0xe5 else if a then 0xa5 else 0x34))
      else (if c then (if b then if a then 0xcc else 0xf7 else if a then 0x3f else 0x36) else (if b then if a then 0x26 else 0x93 else if a then 0xfd else 0xb7));
  }

  lemma Row3(d: bool, c: bool, b: bool, a: bool)
    ensures SboxGates(false, false, true, true, d, c, b, a) == Pick(Sbox[3], d, c, b, a)
  {
    assert Pick(Sbox[3], d, c, b, a) ==
      if d then (if c then (if b then if a then 0x75 else 0xb2 else if a then 0x27 else 0xeb) else (if b then if a then 0xe2 else 0x80 else if a then 0x12 else 0x07))
      else (if c then (if b then if a then 0x9a else 0x05 else if a then 0x96 else 0x18) else (if b then if a then 0xc3 else 0x23 else if a then 0xc7 else 0x04));
  }

  lemma Row4(d: bool, c: bool, b: bool, a: bool)
    ensures SboxGates(false, true, false, false, d, c, b, a) == Pick(Sbox[4], d, c, b, a)
  {
    assert Pick(Sbox[4], d, c, b, a) ==
      if d then (if c then (if b then if a then 0x84 else 0x2f else if a then 0xe3 else 0x29) else (if b then if a then 0xb3 else 0xd6 else if a then 0x3b else 0x52))
      else (if c then (if b then if a then 0xa0 else 0x5a else if a then 0x6e else 0x1b) else (if b then if a then 0x1a else 0x2c else if a then 0x83 else 0x09));
  }

  lemma Row5(d: bool, c: bool, b: bool, a: bool)
    ensures SboxGates(false, true, false, true, d, c, b, a) == Pick(Sbox[5], d, c, b, a)
  {
    assert Pick(Sbox[5], d, c, b, a) ==
      if d then (if c then (if b then if a then 0xcf else 0x58 else if a then 0x4c else 0x4a) else (if b then if a then 0x39 else 0xbe else if a then 0xcb else 0x6a))
      else (if c then (if b then if a then 0x5b else 0xb1 else if a then 0xfc else 0x20) else (if b then if a then 0xed else 0x00 else if a then 0xd1 else 0x53));
  }

  lemma Row6(d: bool, c: bool, b: bool, a: bool)
    ensures SboxGates(false, true, true, false, d, c, b, a) == Pick(Sbox[6], d, c, b, a)
  {
    assert Pick(Sbox[6], d, c, b, a) ==
      if d then (if c then (if b then if a then 0xa8 else 0x9f else if a then 0x3c else 0x50) else (if b then if a then 0x7f else 0x02 else if a then 0xf9 else 0x45))
      else (if c then (if b then if a then 0x85 else 0x33 else if a then 0x4d else 0x43) else (if b then if a then 0xfb else 0xaa else if a then 0xef else 0xd0));
  }

  lemma Row7(d: bool, c: bool, b: bool, a: bool)
    ensures SboxGates(false, true, true, true, d, c, b, a) == Pick(Sbox[7], d, c, b, a)
  {
    assert Pick(Sbox[7], d, c, b, a) ==
      if d then (if c then (if b then if a then 0xd2 else 0xf3 else if a then 0xff else 0x10) else (if b then if a then 0x21 else 0xda else if a then 0xb6 else 0xbc))
      else (if c then (if b then if a then 0xf5 else 0x38 else if a then 0x9d else 0x92) else (if b then if a then 0x8f else 0x40 else if a then 0xa3 else 0x51));
  }

  lemma Row8(d: bool, c: bool, b: bool, a: bool)
    ensures SboxGates(true, false, false, false, d, c, b, a) == Pick(Sbox[8], d, c, b, a)
  {
    assert Pick(Sbox[8], d, c, b, a) ==
      if d then (if c then (if b then if a then 0x73 else 0x19 else if a then 0x5d else 0x64) else (if b then if a then 0x3d else 0x7e else if a then 0xa7 else 0xc4))
      else (if c then (if b then if a then 0x17 else 0x44 else if a then 0x97 else 0x5f) else (if b then if a then 0xec else 0x13 else if a then 0x0c else 0xcd));
  }

  lemma Row9(d: bool, c: bool, b: bool, a: bool)
    ensures SboxGates(true, false, false, true, d, c, b, a) == Pick(Sbox[9], d, c, b, a)
  {
    assert Pick(Sbox[9], d, c, b, a) ==
      if d then (if c then (if b then if a then 0xdb else 0x0b else if a then 0x5e else 0xde) else (if b then if a then 0x14 else 0xb8 else if a then 0xee else 0x46))
      else (if c then (if b then if a then 0x88 else 0x90 else if a then 0x2a else 0x22) else (if b then if a then 0xdc else 0x4f else if a then 0x81 else 0x60));
  }

  lemma RowA(d: bool, c: bool, b: bool, a: bool)
    ensures SboxGates(true, false, true, false, d, c, b, a) == Pick(Sbox[10], d, c, b, a)
  {
    assert Pick(Sbox[10], d, c, b, a) ==
      if d then (if c then (if b then if a then 0x79 else 0xe4 else if a then 0x95 else 0x91) else (if b then if a then 0x62 else 0xac else if a then 0xd3 else 0xc2))
      else (if c then (if b then if a then 0x5c else 0x24 else if a then 0x06 else 0x49) else (if b then if a then 0x0a else 0x3a else if a then 0x32 else 0xe0));
  }

  lemma RowB(d: bool, c: bool, b: bool, a: bool)
    ensures SboxGates(true, false, true, true, d, c, b, a) == Pick(Sbox[11], d, c, b, a)
  {
    assert Pick(Sbox[11], d, c, b, a) ==
      if d then (if c then (if b then if a then 0x08 else 0xae else if a then 0x7a else 0x65) else (if b then if a then 0xea else 0xf4 else if a then 0x56 else 0x6c))
      else (if c then (if b then if a then 0xa9 else 0x4e else if a then 0xd5 else 0x8d) else (if b then if a then 0x6d else 0x37 else if a then 0xc8 else 0xe7));
  }

  lemma RowC(d: bool, c: bool, b: bool, a: bool)
    ensures SboxGates(true, true, false, false, d, c, b, a) == Pick(Sbox[12], d, c, b, a)
  {
    assert Pick(Sbox[12], d, c, b, a) ==
      if d then (if c then (if b then if a then 0x8a else 0x8b else if a then 0xbd else 0x4b) else (if b then if a then 0x1f else 0x74 else if a then 0xdd else 0xe8))
      else (if c then (if b then if a then 0xc6 else 0xb4 else if a then 0xa6 else 0x1c) else (if b then if a then 0x2e else 0x25 else if a then 0x78 else 0xba));
  }

  lemma RowD(d: bool, c: bool, b: bool, a: bool)
    ensures SboxGates(true, true, false, true, d, c, b, a) == Pick(Sbox[13], d, c, b, a)
  {
    assert Pick(Sbox[13], d, c, b, a) ==
      if d then (if c then (if b then if a then 0x9e else 0x1d else if a then 0xc1 else 0x86) else (if b then if a then 0xb9 else 0x57 else if a then 0x35 else 0x61))
      else (if c then (if b then if a then 0x0e else 0xf6 else if a then 0x03 else 0x48) else (if b then if a then 0x66 else 0xb5 else if a then 0x3e else 0x70));
  }

  lemma RowE(d: bool, c: bool, b: bool, a: bool)
    ensures SboxGates(true, true, true, false, d, c, b, a) == Pick(Sbox[14], d, c, b, a)
  {
    assert Pick(Sbox[14], d, c, b, a) ==
      if d then (if c then (if b then if a then 0xdf else 0x28 else if a then 0x55 else 0xce) else (if b then if a then 0xe9 else 0x87 else if a then 0x1e else 0x9b))
      else (if c then (if b then if a then 0x94 else 0x8e else if a then 0xd9 else 0x69) else (if b then if a then 0x11 else 0x98 else if a then 0xf8 else 0xe1));
  }

  lemma RowF(d: bool, c: bool, b: bool, a: bool)
    ensures SboxGates(true, true, true, true, d, c, b, a) == Pick(Sbox[15], d, c, b, a)
  {
    assert Pick(Sbox[15], d, c, b, a) ==
      if d then (if c then (if b then if a then 0x16 else 0xbb else if a then 0x54 else 0xb0) else (if b then if a then 0x0f else 0x2d else if a then 0x99 else 0x41))
      else (if c then (if b then if a then 0x68 else 0x42 else if a then 0xe6 else 0xbf) else (if b then if a then 0x0d else 0x89 else if a then 0xa1 else 0x8c));
  }

  lemma Rows0(U2: bool, U3: bool, U4: bool, U5: bool, U6: bool, U7: bool)
    ensures SboxGates(false, false, U2, U3, U4, U5, U6, U7) == Pick(Pick(Sbox, false, false, U2, U3), U4, U5, U6, U7)
  {
    if U2 {
      if U3 {
        Row3(U4, U5, U6, U7);
      } else {
        Row2(U4, U5, U6, U7);
      }
    } else {
      if U3 {
        Row1(U4, U5, U6, U7);
      } else {
        Row0(U4, U5, U6, U7);
      }
    }
  }

  lemma Rows1(U2: bool, U3: bool, U4: bool, U5: bool, U6: bool, U7: bool)
    ensures SboxGates(false, true, U2, U3, U4, U5, U6, U7) == Pick(Pick(Sbox, false, true, U2, U3), U4, U5, U6, U7)
  {
    if U2 {
      if U3 {
        Row7(U4, U5, U6, U7);
      } else {
        Row6(U4, U5, U6, U7);
      }
    } else {
      if U3 {
        Row5(U4, U5, U6, U7);
      } else {
        Row4(U4, U5, U6, U7);
      }
    }
  }

  lemma Rows2(U2: bool, U3: bool, U4: bool, U5: bool, U6: bool, U7: bool)
    ensures SboxGates(true, false, U2, U3, U4, U5, U6, U7) == Pick(Pick(Sbox, true, false, U2, U3), U4, U5, U6, U7)
  {
    if U2 {
      if U3 {
        RowB(U4, U5, U6, U7);
      } else {
        RowA(U4, U5, U6, U7);
      }
    } else {
      if U3 {
        Row9(U4, U5, U6, U7);
      } else {
        Row8(U4, U5, U6, U7);
      }
    }
  }

  lemma Rows3(U2: bool, U3: bool, U4: bool, U5: bool, U6: bool, U7: bool)
    ensures SboxGates(true, true, U2, U3, U4, U5, U6, U7) == Pick(Pick(Sbox, true, true, U2, U3), U4, U5, U6, U7)
  {
    if U2 {
      if U3 {
        RowF(U4, U5, U6, U7);
      } else {
        RowE(U4, U5, U6, U7);
      }
    } else {
      if U3 {
        RowD(U4, U5, U6, U7);
      } else {
        RowC(U4, U5, U6, U7);
      }
    }
  }

  lemma Rows(U0: bool, U1: bool, U2: bool, U3: bool, U4: bool, U5: bool, U6: bool, U7: bool)
    ensures SboxGates(U0, U1, U2, U3, U4, U5, U6, U7) == Pick(Pick(Sbox, U0, U1, U2, U3), U4, U5, U6, U7)
  {
    if U0 {
      if U1 {
        Rows3(U2, U3, U4, U5, U6, U7);
      } else {
        Rows2(U2, U3, U4, U5, U6, U7);
      }
    } else {
      if U1 {
        Rows1(U2, U3, U4, U5, U6, U7);
      } else {
        Rows0(U2, U3, U4, U5, U6, U7);
      }
    }
  }

  /** The S-box circuit computes the table, for every byte. */
  lemma SboxCorrect(x: bv8)
    ensures SboxModule(x) == Sub(x)
  {
    var U0, U1, U2, U3 := BitOf(x, 7), BitOf(x, 6), BitOf(x, 5), BitOf(x, 4);
    var U4, U5, U6, U7 := BitOf(x, 3), BitOf(x, 2), BitOf(x, 1), BitOf(x, 0);
    calc {
      SboxModule(x);
      SboxGates(U0, U1, U2, U3, U4, U5, U6, U7);
      { Rows(U0, U1, U2, U3, U4, U5, U6, U7); }
      Pick(Pick(Sbox, U0, U1, U2, U3), U4, U5, U6, U7);
      { SubPick(x); }
      Sub(x);
    }
  }

  // ---------- the inverse S-box, likewise ----------

  lemma InvRow0(d: bool, c: bool, b: bool, a: bool)
    ensures InvSboxGates(false, false, false, false, d, c, b, a) == Pick(InvSbox[0], d, c, b, a)
  {
    assert Pick(InvSbox[0], d, c, b, a) ==
      if d then (if c then (if b then if a then 0xfb else 0xd7 else if a then 0xf3 else 0x81) else (if b then if a then 0x9e else 0xa3 else if a then 0x40 else 0xbf))
      else (if c then (if b then if a then 0x38 else 0xa5 else if a then 0x36 else 0x30) else (if b then if a then 0xd5 else 0x6a else if a then 0x09 else 0x52));
  }

  lemma InvRow1(d: bool, c: bool, b: bool, a: bool)
    ensures InvSboxGates(false, false, false, true, d, c, b, a) == Pick(InvSbox[1], d, c, b, a)
  {
    assert Pick(InvSbox[1], d, c, b, a) ==
      if d then (if c then (if b then if a then 0xcb else 0xe9 else if a then 0xde else 0xc4) else (if b then if a then 0x44 else 0x43 else if a then 0x8e else 0x34))
      else (if c then (if b then if a then 0x87 else 0xff else if a then 0x2f else 0x9b) else (if b then if a then 0x82 else 0x39 else if a then 0xe3 else 0x7c));
  }

  lemma InvRow2(d: bool, c: bool, b: bool, a: bool)
    ensures InvSboxGates(false, false, true, false, d, c, b, a) == Pick(InvSbox[2], d, c, b, a)
  {
    assert Pick(InvSbox[2], d, c, b, a) ==
      if d then (if c then (if b then if a then 0x4e else 0xc3 else if a then 0xfa else 0x42) else (if b then if a then 0x0b else 0x95 else if a then 0x4c else 0xee))
      else (if c then (if b then if a then 0x3d else 0x23 else if a then 0xc2 else 0xa6) else (if b then if a then 0x32 else 0x94 else if a then 0x7b else 0x54));
  }

  lemma InvRow3(d: bool, c: bool, b: bool, a: bool)
    ensures InvSboxGates(false, false, true, true, d, c, b, a) == Pick(InvSbox[3], d, c, b, a)
  {
    assert Pick(InvSbox[3], d, c, b, a) ==
      if d then (if c then (if b then if a then 0x25 else 0xd1 else if a then 0x8b else 0x6d) else (if b then if a then 0x49 else 0xa2 else if a then 0x5b else 0x76))
      else (if c then (if b then if a then 0xb2 else 0x24 else if a then 0xd9 else 0x28) else (if b then if a then 0x66 else 0xa1 else if a then 0x2e else 0x08));
  }

  lemma InvRow4(d: bool, c: bool, b: bool, a: bool)
    ensures InvSboxGates(false, true, false, false, d, c, b, a) == Pick(InvSbox[4], d, c, b, a)
  {
    assert Pick(InvSbox[4], d, c, b, a) ==
      if d then (if c then (if b then if a then 0x92 else 0xb6 else if a then 0x65 else 0x5d) else (if b then if a then 0xcc else 0x5c else if a then 0xa4 else 0xd4))
      else (if c then (if b then if a then 0x16 else 0x98 else if a then 0x68 else 0x86) else (if b then if a then 0x64 else 0xf6 else if a then 0xf8 else 0x72));
  }

  lemma InvRow5(d: bool, c: bool, b: bool, a: bool)
    ensures InvSboxGates(false, true, false, true, d, c, b, a) == Pick(InvSbox[5], d, c, b, a)
  {
    assert Pick(InvSbox[5], d, c, b, a) ==
      if d then (if c then (if b then if a then 0x84 else 0x9d else if a then 0x8d else 0xa7) else (if b then if a then 0x57 else 0x46 else if a then 0x15 else 0x5e))
      else (if c then (if b then if a then 0xda else 0xb9 else if a then 0xed else 0xfd) else (if b then if a then 0x50 else 0x48 else if a then 0x70 else 0x6c));
  }

  lemma InvRow6(d: bool, c: bool, b: bool, a: bool)
    ensures InvSboxGates(false, true, true, false, d, c, b, a) == Pick(InvSbox[6], d, c, b, a)
  {
    assert Pick(InvSbox[6], d, c, b, a) ==
      if d then (if c then (if b then if a then 0x06 else 0x45 else if a then 0xb3 else 0xb8) else (if b then if a then 0x05 else 0x58 else if a then 0xe4 else 0xf7))
      else (if c then (if b then if a then 0x0a else 0xd3 else if a then 0xbc else 0x8c) else (if b then if a then 0x00 else 0xab else if a then 0xd8 else 0x90));
  }

  lemma InvRow7(d: bool, c: bool, b: bool, a: bool)
    ensures InvSboxGates(false, true, true, true, d, c, b, a) == Pick(InvSbox[7], d, c, b, a)
  {
    assert Pick(InvSbox[7], d, c, b, a) ==
      if d then (if c then (if b then if a then 0x6b else 0x8a else if a then 0x13 else 0x01) else (if b then if a then 0x03 else 0xbd else if a then 0xaf else 0xc1))
      else (if c then (if b then if a then 0x02 else 0x0f else if a then 0x3f else 0xca) else (if b then if a then 0x8f else 0x1e else if a then 0x2c else 0xd0));
  }

  lemma InvRow8(d: bool, c: bool, b: bool, a: bool)
    ensures InvSboxGates(true, false, false, false, d, c, b, a) == Pick(InvSbox[8], d, c, b, a)
  {
    assert Pick(InvSbox[8], d, c, b, a) ==
      if d then (if c then (if b then if a then 0x73 else 0xe6 else if a then 0xb4 else 0xf0) else (if b then if a then 0xce else 0xcf else if a then 0xf2 else 0x97))
      else (if c then (if b then if a then 0xea else 0xdc else if a then 0x67 else 0x4f) else (if b then if a then 0x41 else 0x11 else if a then 0x91 else 0x3a));
  }

  lemma InvRow9(d: bool, c: bool, b: bool, a: bool)
    ensures InvSboxGates(true, false, false, true, d, c, b, a) == Pick(InvSbox[9], d, c, b, a)
  {
    assert Pick(InvSbox[9], d, c, b, a) ==
      if d then (if c then (if b then if a then 0x6e else 0xdf else if a then 0x75 else 0x1c) else (if b then if a then 0xe8 else 0x37 else if a then 0xf9 else 0xe2))
      else (if c then (if b then if a then 0x85 else 0x35 else if a then 0xad else 0xe7) else (if b then if a then 0x22 else 0x74 else if a then 0xac else 0x96));
  }

  lemma InvRowA(d: bool, c: bool, b: bool, a: bool)
    ensures InvSboxGates(true, false, true, false, d, c, b, a) == Pick(InvSbox[10], d, c, b, a)
  {
    assert Pick(InvSbox[10], d, c, b, a) ==
      if d then (if c then (if b then if a then 0x1b else 0xbe else if a then 0x18 else 0xaa) else (if b then if a then 0x0e else 0x62 else if a then 0xb7 else 0x6f))
      else (if c then (if b then if a then 0x89 else 0xc5 else if a then 0x29 else 0x1d) else (if b then if a then 0x71 else 0x1a else if a then 0xf1 else 0x47));
  }

  lemma InvRowB(d: bool, c: bool, b: bool, a: bool)
    ensures InvSboxGates(true, false, true, true, d, c, b, a) == Pick(InvSbox[11], d, c, b, a)
  {
    assert Pick(InvSbox[11], d, c, b, a) ==
      if d then (if c then (if b then if a then 0xf4 else 0x5a else if a then 0xcd else 0x78) else (if b then if a then 0xfe else 0xc0 else if a then 0xdb else 0x9a))
      else (if c then (if b then if a then 0x20 else 0x79 else if a then 0xd2 else 0xc6) else (if b then if a then 0x4b else 0x3e else if a then 0x56 else 0xfc));
  }

  lemma InvRowC(d: bool, c: bool, b: bool, a: bool)
    ensures InvSboxGates(true, true, false, false, d, c, b, a) == Pick(InvSbox[12], d, c, b, a)
  {
    assert Pick(InvSbox[12], d, c, b, a) ==
      if d then (if c then (if b then if a then 0x5f else 0xec else if a then 0x80 else 0x27) else (if b then if a then 0x59 else 0x10 else if a then 0x12 else 0xb1))
      else (if c then (if b then if a then 0x31 else 0xc7 else if a then 0x07 else 0x88) else (if b then if a then 0x33 else 0xa8 else if a then 0xdd else 0x1f));
  }

  lemma InvRowD(d: bool, c: bool, b: bool, a: bool)
    ensures InvSboxGates(true, true, false, true, d, c, b, a) == Pick(InvSbox[13], d, c, b, a)
  {
    assert Pick(InvSbox[13], d, c, b, a) ==
      if d then (if c then (if b then if a then 0xef else 0x9c else if a then 0xc9 else 0x93) else (if b then if a then 0x9f else 0x7a else if a then 0xe5 else 0x2d))
      else (if c then (if b then if a then 0x0d else 0x4a else if a then 0xb5 else 0x19) else (if b then if a then 0xa9 else 0x7f else if a then 0x51 else 0x60));
  }

  lemma InvRowE(d: bool, c: bool, b: bool, a: bool)
    ensures InvSboxGates(true, true, true, false, d, c, b, a) == Pick(InvSbox[14], d, c, b, a)
  {
    assert Pick(InvSbox[14], d, c, b, a) ==
      if d then (if c then (if b then if a then 0x61 else 0x99 else if a then 0x53 else 0x83) else (if b then if a then 0x3c else 0xbb else if a then 0xeb else 0xc8))
      else (if c then (if b then if a then 0xb0 else 0xf5 else if a then 0x2a else 0xae) else (if b then if a then 0x4d else 0x3b else if a then 0xe0 else 0xa0));
  }

  lemma InvRowF(d: bool, c: bool, b: bool, a: bool)
    ensures InvSboxGates(true, true, true, true, d, c, b, a) == Pick(InvSbox[15], d, c, b, a)
  {
    assert Pick(InvSbox[15], d, c, b, a) ==
      if d then (if c then (if b then if a then 0x7d else 0x0c else if a then 0x21 else 0x55) else (if b then if a then 0x63 else 0x14 else if a then 0x69 else 0xe1))
      else (if c then (if b then if a then 0x26 else 0xd6 else if a then 0x77 else 0xba) else (if b then if a then 0x7e else 0x04 else if a then 0x2b else 0x17));
  }

  lemma InvRows0(U2: bool, U3: bool, U4: bool, U5: bool, U6: bool, U7: bool)
    ensures InvSboxGates(false, false, U2, U3, U4, U5, U6, U7) == Pick(Pick(InvSbox, false, false, U2, U3), U4, U5, U6, U7)
  {
    if U2 {
      if U3 {
        InvRow3(U4, U5, U6, U7);
      } else {
        InvRow2(U4, U5, U6, U7);
      }
    } else {
      if U3 {
        InvRow1(U4, U5, U6, U7);
      } else {
        InvRow0(U4, U5, U6, U7);
      }
    }
  }

  lemma InvRows1(U2: bool, U3: bool, U4: bool, U5: bool, U6: bool, U7: bool)
    ensures InvSboxGates(false, true, U2, U3, U4, U5, U6, U7) == Pick(Pick(InvSbox, false, true, U2, U3), U4, U5, U6, U7)
  {
    if U2 {
      if U3 {
        InvRow7(U4, U5, U6, U7);
      } else {
        InvRow6(U4, U5, U6, U7);
      }
    } else {
      if U3 {
        InvRow5(U4, U5, U6, U7);
      } else {
        InvRow4(U4, U5, U6, U7);
      }
    }
  }

  lemma InvRows2(U2: bool, U3: bool, U4: bool, U5: bool, U6: bool, U7: bool)
    ensures InvSboxGates(true, false, U2, U3, U4, U5, U6, U7) == Pick(Pick(InvSbox, true, false, U2, U3), U4, U5, U6, U7)
  {
    if U2 {
      if U3 {
        InvRowB(U4, U5, U6, U7);
      } else {
        InvRowA(U4, U5, U6, U7);
      }
    } else {
      if U3 {
        InvRow9(U4, U5, U6, U7);
      } else {
        InvRow8(U4, U5, U6, U7);
      }
    }
  }

  lemma InvRows3(U2: bool, U3: bool, U4: bool, U5: bool, U6: bool, U7: bool)
    ensures InvSboxGates(true, true, U2, U3, U4, U5, U6, U7) == Pick(Pick(InvSbox, true, true, U2, U3), U4, U5, U6, U7)
  {
    if U2 {
      if U3 {
        InvRowF(U4, U5, U6, U7);
      } else {
        InvRowE(U4, U5, U6, U7);
      }
    } else {
      if U3 {
        InvRowD(U4, U5, U6, U7);
      } else {
        InvRowC(U4, U5, U6, U7);
      }
    }
  }

  lemma InvRows(U0: bool, U1: bool, U2: bool, U3: bool, U4: bool, U5: bool, U6: bool, U7: bool)
    ensures InvSboxGates(U0, U1, U2, U3, U4, U5, U6, U7) == Pick(Pick(InvSbox, U0, U1, U2, U3), U4, U5, U6, U7)
  {
    if U0 {
      if U1 {
        InvRows3(U2, U3, U4, U5, U6, U7);
      } else {
        InvRows2(U2, U3, U4, U5, U6, U7);
      }
    } else {
      if U1 {
        InvRows1(U2, U3, U4, U5, U6, U7);
      } else {
        InvRows0(U2, U3, U4, U5, U6, U7);
      }
    }
  }

  /** The inverse S-box circuit computes the inverse table, for every byte. */
  lemma InvSboxCorrect(x: bv8)
    ensures InvSboxModule(x) == InvSub(x)
  {
    var U0, U1, U2, U3 := BitOf(x, 7), BitOf(x, 6), BitOf(x, 5), BitOf(x, 4);
    var U4, U5, U6, U7 := BitOf(x, 3), BitOf(x, 2), BitOf(x, 1), BitOf(x, 0);
    calc {
      InvSboxModule(x);
      InvSboxGates(U0, U1, U2, U3, U4, U5, U6, U7);
      { InvRows(U0, U1, U2, U3, U4, U5, U6, U7); }
      Pick(Pick(InvSbox, U0, U1, U2, U3), U4, U5, U6, U7);
      { InvSubPick(x); }
      InvSub(x);
    }
  }
}
