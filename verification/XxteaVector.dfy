/**
  The published test vector of XXTEA for the 64-bit block ff..ff and the key 9e3779b9 9b9773e9 b979379e 6b695156,
  as little-endian words: the cipher is worked out cycle by cycle.
 */
module XxteaVector {
  import opened Bytes
  import opened Xxtea

  const KEY: Key := [0xB979379E, 0xE973979B, 0x9E3779B9, 0x5651696B]
  const PLAIN := Block(0xFFFFFFFF, 0xFFFFFFFF)

  /** After n cycles the block is [v0, v1]. */
  predicate At(n: nat, v0: uint32, v1: uint32) {
    Rounds(n, PLAIN, KEY) == Block(v0, v1)
  }

  /** What the mixing adds to a word with neighbour y. */
  predicate Adds(y: uint32, sum: uint32, k: uint32, x: uint32) {
    Mx(y, y, sum, k) == x
  }

  /** The key words for e = 0..3. */
  function K(e: nat): uint32 {
    if e == 0 then 0xB979379E else if e == 1 then 0xE973979B else if e == 2 then 0x9E3779B9 else 0x5651696B
  }

  lemma {:induction false} SumIs(n: nat)
    ensures Sum(n) == n * DELTA % TWO_32
  {
    if n == 0 {
    } else {
      hide Plus;
      SumIs(n - 1);
      PlusMod(n * DELTA - DELTA, DELTA);
    }
  }

  /** p ^ e for the second word. */
  function Other(e: nat): nat {
    if e == 0 then 1 else if e == 1 then 0 else if e == 2 then 3 else 2
  }

  lemma KeyIs(sum: uint32)
    ensures KeyWord(KEY, 0, sum) == K(sum / 4 % 4) && KeyWord(KEY, 1, sum) == K(Other(sum / 4 % 4))
  {
  }

  /** Cycle n on known words: `k0` and `k1` are its key words, `x0` and `x1` what its two mixings add. */
  lemma OneCycle(n: nat, sum: uint32, v0: uint32, v1: uint32, k0: uint32, x0: uint32, w0: uint32,
                 k1: uint32, x1: uint32, w1: uint32)
    requires n > 0 && sum == n * DELTA % TWO_32 && At(n - 1, v0, v1)
    requires k0 == K(sum / 4 % 4) && k1 == K(Other(sum / 4 % 4))
    requires Adds(v1, sum, k0, x0) && w0 == Plus(v0, x0)
    requires Adds(w0, sum, k1, x1) && w1 == Plus(v1, x1)
    ensures At(n, w0, w1)
  {
    hide Mx, Plus, Sum, K, Other, KeyWord, KEY;
    SumIs(n);
    KeyIs(sum);
  }

  lemma Mixes1()
    ensures Adds(0xFFFFFFFF, 0x9E3779B9, 0x9E3779B9, 0x1B910C9E)
    ensures Adds(0x1B910C9D, 0x9E3779B9, 0x5651696B, 0xFB9D7949)
    ensures Adds(0xFB9D7948, 0x3C6EF372, 0xB979379E, 0x9A9A9383)
    ensures Adds(0xB62BA020, 0x3C6EF372, 0xE973979B, 0xB802D888)
    ensures Adds(0xB3A051D0, 0xDAA66D2B, 0x9E3779B9, 0x6110386C)
    ensures Adds(0x173BD88C, 0xDAA66D2B, 0x5651696B, 0xC2B9D74B)
    ensures Adds(0x765A291B, 0x78DDE6E4, 0xE973979B, 0xEBF5C7C8)
    ensures Adds(0x0331A054, 0x78DDE6E4, 0xB979379E, 0x766FE3E6)
  {
  }

  lemma Mixes2()
    ensures Adds(0xECCA0D01, 0x1715609D, 0x5651696B, 0x33FD241A)
    ensures Adds(0x372EC46E, 0x1715609D, 0x9E3779B9, 0x985964C2)
    ensures Adds(0x852371C3, 0xB54CDA56, 0xE973979B, 0xCFF8DF67)
    ensures Adds(0x0727A3D5, 0xB54CDA56, 0xB979379E, 0xFF8C76BA)
    ensures Adds(0x84AFE87D, 0x5384540F, 0x5651696B, 0xDB2C641E)
    ensures Adds(0xE25407F3, 0x5384540F, 0x9E3779B9, 0xE97E6D87)
    ensures Adds(0x6E2E5604, 0xF1BBCDC8, 0x9E3779B9, 0x25461EA9)
    ensures Adds(0x079A269C, 0xF1BBCDC8, 0x5651696B, 0xD048431C)
  {
  }

  lemma Cycles1To8()
    ensures At(8, 0x079A269C, 0x3E769920)
  {
    hide At, Adds;
    NoCycle();
    Mixes1();
    Mixes2();
    OneCycle(1, 0x9E3779B9, 0xFFFFFFFF, 0xFFFFFFFF,
             0x9E3779B9, 0x1B910C9E, 0x1B910C9D, 0x5651696B, 0xFB9D7949, 0xFB9D7948);
    OneCycle(2, 0x3C6EF372, 0x1B910C9D, 0xFB9D7948,
             0xB979379E, 0x9A9A9383, 0xB62BA020, 0xE973979B, 0xB802D888, 0xB3A051D0);
    OneCycle(3, 0xDAA66D2B, 0xB62BA020, 0xB3A051D0,
             0x9E3779B9, 0x6110386C, 0x173BD88C, 0x5651696B, 0xC2B9D74B, 0x765A291B);
    OneCycle(4, 0x78DDE6E4, 0x173BD88C, 0x765A291B,
             0xE973979B, 0xEBF5C7C8, 0x0331A054, 0xB979379E, 0x766FE3E6, 0xECCA0D01);
    OneCycle(5, 0x1715609D, 0x0331A054, 0xECCA0D01,
             0x5651696B, 0x33FD241A, 0x372EC46E, 0x9E3779B9, 0x985964C2, 0x852371C3);
    OneCycle(6, 0xB54CDA56, 0x372EC46E, 0x852371C3,
             0xE973979B, 0xCFF8DF67, 0x0727A3D5, 0xB979379E, 0xFF8C76BA, 0x84AFE87D);
    OneCycle(7, 0x5384540F, 0x0727A3D5, 0x84AFE87D,
             0x5651696B, 0xDB2C641E, 0xE25407F3, 0x9E3779B9, 0xE97E6D87, 0x6E2E5604);
    OneCycle(8, 0xF1BBCDC8, 0xE25407F3, 0x6E2E5604,
             0x9E3779B9, 0x25461EA9, 0x079A269C, 0x5651696B, 0xD048431C, 0x3E769920);
  }

  lemma Mixes3()
    ensures Adds(0x3E769920, 0x8FF34781, 0xB979379E, 0xE0449C32)
    ensures Adds(0xE7DEC2CE, 0x8FF34781, 0xE973979B, 0x8F872B43)
    ensures Adds(0xCDFDC463, 0x2E2AC13A, 0x9E3779B9, 0xC05D3D58)
    ensures Adds(0xA83C0026, 0x2E2AC13A, 0x5651696B, 0xB8FD4894)
    ensures Adds(0x86FB0CF7, 0xCC623AF3, 0xB979379E, 0x1550EBC4)
    ensures Adds(0xBD8CEBEA, 0xCC623AF3, 0xE973979B, 0x05B0A15E)
    ensures Adds(0x8CABAE55, 0x6A99B4AC, 0x5651696B, 0xD0D796F7)
    ensures Adds(0x8E6482E1, 0x6A99B4AC, 0x9E3779B9, 0xC034DC7A)
  {
  }

  lemma Mixes4()
    ensures Adds(0x4CE08ACF, 0x08D12E65, 0xE973979B, 0x10BD2CED)
    ensures Adds(0x9F21AFCE, 0x08D12E65, 0xB979379E, 0xE43762A4)
    ensures Adds(0x3117ED73, 0xA708A81E, 0x5651696B, 0x2056FCC0)
    ensures Adds(0xBF78AC8E, 0xA708A81E, 0x9E3779B9, 0xE1C08D0A)
    ensures Adds(0x12D87A7D, 0x454021D7, 0xE973979B, 0x28979B56)
    ensures Adds(0xE81047E4, 0x454021D7, 0xB979379E, 0xBDB1C2C6)
    ensures Adds(0xD08A3D43, 0xE3779B90, 0xB979379E, 0xCAAF89CE)
    ensures Adds(0xB2BFD1B2, 0xE3779B90, 0xE973979B, 0xA0810910)
  {
  }

  lemma Cycles9To16()
    requires At(8, 0x079A269C, 0x3E769920)
    ensures At(16, 0xB2BFD1B2, 0x710B4653)
  {
    hide At, Adds;
    Mixes3();
    Mixes4();
    OneCycle(9, 0x8FF34781, 0x079A269C, 0x3E769920,
             0xB979379E, 0xE0449C32, 0xE7DEC2CE, 0xE973979B, 0x8F872B43, 0xCDFDC463);
    OneCycle(10, 0x2E2AC13A, 0xE7DEC2CE, 0xCDFDC463,
             0x9E3779B9, 0xC05D3D58, 0xA83C0026, 0x5651696B, 0xB8FD4894, 0x86FB0CF7);
    OneCycle(11, 0xCC623AF3, 0xA83C0026, 0x86FB0CF7,
             0xB979379E, 0x1550EBC4, 0xBD8CEBEA, 0xE973979B, 0x05B0A15E, 0x8CABAE55);
    OneCycle(12, 0x6A99B4AC, 0xBD8CEBEA, 0x8CABAE55,
             0x5651696B, 0xD0D796F7, 0x8E6482E1, 0x9E3779B9, 0xC034DC7A, 0x4CE08ACF);
    OneCycle(13, 0x08D12E65, 0x8E6482E1, 0x4CE08ACF,
             0xE973979B, 0x10BD2CED, 0x9F21AFCE, 0xB979379E, 0xE43762A4, 0x3117ED73);
    OneCycle(14, 0xA708A81E, 0x9F21AFCE, 0x3117ED73,
             0x5651696B, 0x2056FCC0, 0xBF78AC8E, 0x9E3779B9, 0xE1C08D0A, 0x12D87A7D);
    OneCycle(15, 0x454021D7, 0xBF78AC8E, 0x12D87A7D,
             0xE973979B, 0x28979B56, 0xE81047E4, 0xB979379E, 0xBDB1C2C6, 0xD08A3D43);
    OneCycle(16, 0xE3779B90, 0xE81047E4, 0xD08A3D43,
             0xB979379E, 0xCAAF89CE, 0xB2BFD1B2, 0xE973979B, 0xA0810910, 0x710B4653);
  }

  lemma Mixes5()
    ensures Adds(0x710B4653, 0x81AF1549, 0x9E3779B9, 0x39DAC27C)
    ensures Adds(0xEC9A942E, 0x81AF1549, 0x5651696B, 0xA149EAD2)
    ensures Adds(0x12553125, 0x1FE68F02, 0xB979379E, 0xC83FE573)
    ensures Adds(0xB4DA79A1, 0x1FE68F02, 0xE973979B, 0x3AEAEEB0)
    ensures Adds(0x4D401FD5, 0xBE1E08BB, 0x9E3779B9, 0xD3C1038E)
    ensures Adds(0x889B7D2F, 0xBE1E08BB, 0x5651696B, 0xAB826572)
    ensures Adds(0xF8C28547, 0x5C558274, 0xE973979B, 0xC1B41C01)
    ensures Adds(0x4A4F9930, 0x5C558274, 0xB979379E, 0xD04CB1DD)
  {
  }

  lemma Mixes6()
    ensures Adds(0xC90F3724, 0xFA8CFC2D, 0x5651696B, 0x7EA51095)
    ensures Adds(0xC8F4A9C5, 0xFA8CFC2D, 0x9E3779B9, 0x32D52DA6)
    ensures Adds(0xFBE464CA, 0x98C475E6, 0xE973979B, 0xFC31743A)
    ensures Adds(0xC5261DFF, 0x98C475E6, 0xB979379E, 0x8737F118)
    ensures Adds(0x831C55E2, 0x36FBEF9F, 0x5651696B, 0xA1247EC5)
    ensures Adds(0x664A9CC4, 0x36FBEF9F, 0x9E3779B9, 0x4B579F16)
    ensures Adds(0xCE73F4F8, 0xD5336958, 0x9E3779B9, 0x55285787)
    ensures Adds(0xBB72F44B, 0xD5336958, 0x5651696B, 0xD3345AF4)
  {
  }

  lemma Cycles17To24()
    requires At(16, 0xB2BFD1B2, 0x710B4653)
    ensures At(24, 0xBB72F44B, 0xA1A84FEC)
  {
    hide At, Adds;
    Mixes5();
    Mixes6();
    OneCycle(17, 0x81AF1549, 0xB2BFD1B2, 0x710B4653,
             0x9E3779B9, 0x39DAC27C, 0xEC9A942E, 0x5651696B, 0xA149EAD2, 0x12553125);
    OneCycle(18, 0x1FE68F02, 0xEC9A942E, 0x12553125,
             0xB979379E, 0xC83FE573, 0xB4DA79A1, 0xE973979B, 0x3AEAEEB0, 0x4D401FD5);
    OneCycle(19, 0xBE1E08BB, 0xB4DA79A1, 0x4D401FD5,
             0x9E3779B9, 0xD3C1038E, 0x889B7D2F, 0x5651696B, 0xAB826572, 0xF8C28547);
    OneCycle(20, 0x5C558274, 0x889B7D2F, 0xF8C28547,
             0xE973979B, 0xC1B41C01, 0x4A4F9930, 0xB979379E, 0xD04CB1DD, 0xC90F3724);
    OneCycle(21, 0xFA8CFC2D, 0x4A4F9930, 0xC90F3724,
             0x5651696B, 0x7EA51095, 0xC8F4A9C5, 0x9E3779B9, 0x32D52DA6, 0xFBE464CA);
    OneCycle(22, 0x98C475E6, 0xC8F4A9C5, 0xFBE464CA,
             0xE973979B, 0xFC31743A, 0xC5261DFF, 0xB979379E, 0x8737F118, 0x831C55E2);
    OneCycle(23, 0x36FBEF9F, 0xC5261DFF, 0x831C55E2,
             0x5651696B, 0xA1247EC5, 0x664A9CC4, 0x9E3779B9, 0x4B579F16, 0xCE73F4F8);
    OneCycle(24, 0xD5336958, 0x664A9CC4, 0xCE73F4F8,
             0x9E3779B9, 0x55285787, 0xBB72F44B, 0x5651696B, 0xD3345AF4, 0xA1A84FEC);
  }

  lemma Mixes7()
    ensures Adds(0xA1A84FEC, 0x736AE311, 0xB979379E, 0x79CA5063)
    ensures Adds(0x353D44AE, 0x736AE311, 0xE973979B, 0x0876A1E6)
    ensures Adds(0xAA1EF1D2, 0x11A25CCA, 0x9E3779B9, 0x8E31C663)
    ensures Adds(0xC36F0B11, 0x11A25CCA, 0x5651696B, 0x524F1EDB)
    ensures Adds(0xFC6E10AD, 0xAFD9D683, 0xB979379E, 0x57091797)
    ensures Adds(0x1A7822A8, 0xAFD9D683, 0xE973979B, 0xA6ADD3D4)
    ensures Adds(0xA31BE481, 0x4E11503C, 0x5651696B, 0x4D01C307)
    ensures Adds(0x6779E5AF, 0x4E11503C, 0x9E3779B9, 0x38FAEE7F)
  {
  }

  lemma Mixes8()
    ensures Adds(0xDC16D300, 0xEC48C9F5, 0xE973979B, 0x3468BB68)
    ensures Adds(0x9BE2A117, 0xEC48C9F5, 0xB979379E, 0x82EE29CD)
    ensures Adds(0x5F04FCCD, 0x8A8043AE, 0x5651696B, 0xA4417D12)
    ensures Adds(0x40241E29, 0x8A8043AE, 0x9E3779B9, 0xA4617CBD)
    ensures Adds(0x0366798A, 0x28B7BD67, 0xE973979B, 0x56699F8B)
    ensures Adds(0x968DBDB4, 0x28B7BD67, 0xB979379E, 0x36A382CE)
    ensures Adds(0x3A09FC58, 0xC6EF3720, 0xB979379E, 0x11812FB3)
    ensures Adds(0xA80EED67, 0xC6EF3720, 0xE973979B, 0x8B359B90)
  {
  }

  lemma Cycles25To32()
    requires At(24, 0xBB72F44B, 0xA1A84FEC)
    ensures At(32, 0xA80EED67, 0xC53F97E8)
  {
    hide At, Adds;
    Mixes7();
    Mixes8();
    OneCycle(25, 0x736AE311, 0xBB72F44B, 0xA1A84FEC,
             0xB979379E, 0x79CA5063, 0x353D44AE, 0xE973979B, 0x0876A1E6, 0xAA1EF1D2);
    OneCycle(26, 0x11A25CCA, 0x353D44AE, 0xAA1EF1D2,
             0x9E3779B9, 0x8E31C663, 0xC36F0B11, 0x5651696B, 0x524F1EDB, 0xFC6E10AD);
    OneCycle(27, 0xAFD9D683, 0xC36F0B11, 0xFC6E10AD,
             0xB979379E, 0x57091797, 0x1A7822A8, 0xE973979B, 0xA6ADD3D4, 0xA31BE481);
    OneCycle(28, 0x4E11503C, 0x1A7822A8, 0xA31BE481,
             0x5651696B, 0x4D01C307, 0x6779E5AF, 0x9E3779B9, 0x38FAEE7F, 0xDC16D300);
    OneCycle(29, 0xEC48C9F5, 0x6779E5AF, 0xDC16D300,
             0xE973979B, 0x3468BB68, 0x9BE2A117, 0xB979379E, 0x82EE29CD, 0x5F04FCCD);
    OneCycle(30, 0x8A8043AE, 0x9BE2A117, 0x5F04FCCD,
             0x5651696B, 0xA4417D12, 0x40241E29, 0x9E3779B9, 0xA4617CBD, 0x0366798A);
    OneCycle(31, 0x28B7BD67, 0x40241E29, 0x0366798A,
             0xE973979B, 0x56699F8B, 0x968DBDB4, 0xB979379E, 0x36A382CE, 0x3A09FC58);
    OneCycle(32, 0xC6EF3720, 0x968DBDB4, 0x3A09FC58,
             0xB979379E, 0x11812FB3, 0xA80EED67, 0xE973979B, 0x8B359B90, 0xC53F97E8);
  }

  lemma NoCycle()
    ensures At(0, 0xFFFFFFFF, 0xFFFFFFFF)
  {
  }

  /** The ciphertext is 67ed0ea8 e8973fc5, as published. */
  lemma PublishedVector()
    ensures Encrypt(PLAIN, KEY) == Block(0xA80EED67, 0xC53F97E8)
  {
    hide Rounds, KEY;
    Cycles1To8();
    Cycles9To16();
    Cycles17To24();
    Cycles25To32();
  }
}
