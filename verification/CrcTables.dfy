/** The two lookup tables of the 16-bit checks, eight entries a row. */
module CrcTables {

  // For the polynomial 0x1021, high bit first.
  const TABLE1_0: seq<seq<bv32>> := [
    [0x0000, 0x1021, 0x2042, 0x3063, 0x4084, 0x50A5, 0x60C6, 0x70E7],
    [0x8108, 0x9129, 0xA14A, 0xB16B, 0xC18C, 0xD1AD, 0xE1CE, 0xF1EF],
    [0x1231, 0x0210, 0x3273, 0x2252, 0x52B5, 0x4294, 0x72F7, 0x62D6],
    [0x9339, 0x8318, 0xB37B, 0xA35A, 0xD3BD, 0xC39C, 0xF3FF, 0xE3DE],
    [0x2462, 0x3443, 0x0420, 0x1401, 0x64E6, 0x74C7, 0x44A4, 0x5485],
    [0xA56A, 0xB54B, 0x8528, 0x9509, 0xE5EE, 0xF5CF, 0xC5AC, 0xD58D],
    [0x3653, 0x2672, 0x1611, 0x0630, 0x76D7, 0x66F6, 0x5695, 0x46B4],
    [0xB75B, 0xA77A, 0x9719, 0x8738, 0xF7DF, 0xE7FE, 0xD79D, 0xC7BC]
  ]

  const TABLE1_1: seq<seq<bv32>> := [
    [0x48C4, 0x58E5, 0x6886, 0x78A7, 0x0840, 0x1861, 0x2802, 0x3823],
    [0xC9CC, 0xD9ED, 0xE98E, 0xF9AF, 0x8948, 0x9969, 0xA90A, 0xB92B],
    [0x5AF5, 0x4AD4, 0x7AB7, 0x6A96, 0x1A71, 0x0A50, 0x3A33, 0x2A12],
    [0xDBFD, 0xCBDC, 0xFBBF, 0xEB9E, 0x9B79, 0x8B58, 0xBB3B, 0xAB1A],
    [0x6CA6, 0x7C87, 0x4CE4, 0x5CC5, 0x2C22, 0x3C03, 0x0C60, 0x1C41],
    [0xEDAE, 0xFD8F, 0xCDEC, 0xDDCD, 0xAD2A, 0xBD0B, 0x8D68, 0x9D49],
    [0x7E97, 0x6EB6, 0x5ED5, 0x4EF4, 0x3E13, 0x2E32, 0x1E51, 0x0E70],
    [0xFF9F, 0xEFBE, 0xDFDD, 0xCFFC, 0xBF1B, 0xAF3A, 0x9F59, 0x8F78]
  ]

  const TABLE1_2: seq<seq<bv32>> := [
    [0x9188, 0x81A9, 0xB1CA, 0xA1EB, 0xD10C, 0xC12D, 0xF14E, 0xE16F],
    [0x1080, 0x00A1, 0x30C2, 0x20E3, 0x5004, 0x4025, 0x7046, 0x6067],
    [0x83B9, 0x9398, 0xA3FB, 0xB3DA, 0xC33D, 0xD31C, 0xE37F, 0xF35E],
    [0x02B1, 0x1290, 0x22F3, 0x32D2, 0x4235, 0x5214, 0x6277, 0x7256],
    [0xB5EA, 0xA5CB, 0x95A8, 0x8589, 0xF56E, 0xE54F, 0xD52C, 0xC50D],
    [0x34E2, 0x24C3, 0x14A0, 0x0481, 0x7466, 0x6447, 0x5424, 0x4405],
    [0xA7DB, 0xB7FA, 0x8799, 0x97B8, 0xE75F, 0xF77E, 0xC71D, 0xD73C],
    [0x26D3, 0x36F2, 0x0691, 0x16B0, 0x6657, 0x7676, 0x4615, 0x5634]
  ]

  const TABLE1_3: seq<seq<bv32>> := [
    [0xD94C, 0xC96D, 0xF90E, 0xE92F, 0x99C8, 0x89E9, 0xB98A, 0xA9AB],
    [0x5844, 0x4865, 0x7806, 0x6827, 0x18C0, 0x08E1, 0x3882, 0x28A3],
    [0xCB7D, 0xDB5C, 0xEB3F, 0xFB1E, 0x8BF9, 0x9BD8, 0xABBB, 0xBB9A],
    [0x4A75, 0x5A54, 0x6A37, 0x7A16, 0x0AF1, 0x1AD0, 0x2AB3, 0x3A92],
    [0xFD2E, 0xED0F, 0xDD6C, 0xCD4D, 0xBDAA, 0xAD8B, 0x9DE8, 0x8DC9],
    [0x7C26, 0x6C07, 0x5C64, 0x4C45, 0x3CA2, 0x2C83, 0x1CE0, 0x0CC1],
    [0xEF1F, 0xFF3E, 0xCF5D, 0xDF7C, 0xAF9B, 0xBFBA, 0x8FD9, 0x9FF8],
    [0x6E17, 0x7E36, 0x4E55, 0x5E74, 0x2E93, 0x3EB2, 0x0ED1, 0x1EF0]
  ]

  function Table1(row: bv8): (entries: seq<bv32>)
    requires row < 32
    ensures |entries| == 8
  {
    var r := (row & 7) as nat;
    if row < 8 then TABLE1_0[r] else if row < 16 then TABLE1_1[r] else if row < 24 then TABLE1_2[r] else TABLE1_3[r]
  }

  // For the polynomial 0x8408, low bit first.
  const TABLE2_0: seq<seq<bv32>> := [
    [0x0000, 0x1189, 0x2312, 0x329b, 0x4624, 0x57ad, 0x6536, 0x74bf],
    [0x8c48, 0x9dc1, 0xaf5a, 0xbed3, 0xca6c, 0xdbe5, 0xe97e, 0xf8f7],
    [0x1081, 0x0108, 0x3393, 0x221a, 0x56a5, 0x472c, 0x75b7, 0x643e],
    [0x9cc9, 0x8d40, 0xbfdb, 0xae52, 0xdaed, 0xcb64, 0xf9ff, 0xe876],
    [0x2102, 0x308b, 0x0210, 0x1399, 0x6726, 0x76af, 0x4434, 0x55bd],
    [0xad4a, 0xbcc3, 0x8e58, 0x9fd1, 0xeb6e, 0xfae7, 0xc87c, 0xd9f5],
    [0x3183, 0x200a, 0x1291, 0x0318, 0x77a7, 0x662e, 0x54b5, 0x453c],
    [0xbdcb, 0xac42, 0x9ed9, 0x8f50, 0xfbef, 0xea66, 0xd8fd, 0xc974]
  ]

  const TABLE2_1: seq<seq<bv32>> := [
    [0x4204, 0x538d, 0x6116, 0x709f, 0x0420, 0x15a9, 0x2732, 0x36bb],
    [0xce4c, 0xdfc5, 0xed5e, 0xfcd7, 0x8868, 0x99e1, 0xab7a, 0xbaf3],
    [0x5285, 0x430c, 0x7197, 0x601e, 0x14a1, 0x0528, 0x37b3, 0x263a],
    [0xdecd, 0xcf44, 0xfddf, 0xec56, 0x98e9, 0x8960, 0xbbfb, 0xaa72],
    [0x6306, 0x728f, 0x4014, 0x519d, 0x2522, 0x34ab, 0x0630, 0x17b9],
    [0xef4e, 0xfec7, 0xcc5c, 0xddd5, 0xa96a, 0xb8e3, 0x8a78, 0x9bf1],
    [0x7387, 0x620e, 0x5095, 0x411c, 0x35a3, 0x242a, 0x16b1, 0x0738],
    [0xffcf, 0xee46, 0xdcdd, 0xcd54, 0xb9eb, 0xa862, 0x9af9, 0x8b70]
  ]

  const TABLE2_2: seq<seq<bv32>> := [
    [0x8408, 0x9581, 0xa71a, 0xb693, 0xc22c, 0xd3a5, 0xe13e, 0xf0b7],
    [0x0840, 0x19c9, 0x2b52, 0x3adb, 0x4e64, 0x5fed, 0x6d76, 0x7cff],
    [0x9489, 0x8500, 0xb79b, 0xa612, 0xd2ad, 0xc324, 0xf1bf, 0xe036],
    [0x18c1, 0x0948, 0x3bd3, 0x2a5a, 0x5ee5, 0x4f6c, 0x7df7, 0x6c7e],
    [0xa50a, 0xb483, 0x8618, 0x9791, 0xe32e, 0xf2a7, 0xc03c, 0xd1b5],
    [0x2942, 0x38cb, 0x0a50, 0x1bd9, 0x6f66, 0x7eef, 0x4c74, 0x5dfd],
    [0xb58b, 0xa402, 0x9699, 0x8710, 0xf3af, 0xe226, 0xd0bd, 0xc134],
    [0x39c3, 0x284a, 0x1ad1, 0x0b58, 0x7fe7, 0x6e6e, 0x5cf5, 0x4d7c]
  ]

  const TABLE2_3: seq<seq<bv32>> := [
    [0xc60c, 0xd785, 0xe51e, 0xf497, 0x8028, 0x91a1, 0xa33a, 0xb2b3],
    [0x4a44, 0x5bcd, 0x6956, 0x78df, 0x0c60, 0x1de9, 0x2f72, 0x3efb],
    [0xd68d, 0xc704, 0xf59f, 0xe416, 0x90a9, 0x8120, 0xb3bb, 0xa232],
    [0x5ac5, 0x4b4c, 0x79d7, 0x685e, 0x1ce1, 0x0d68, 0x3ff3, 0x2e7a],
    [0xe70e, 0xf687, 0xc41c, 0xd595, 0xa12a, 0xb0a3, 0x8238, 0x93b1],
    [0x6b46, 0x7acf, 0x4854, 0x59dd, 0x2d62, 0x3ceb, 0x0e70, 0x1ff9],
    [0xf78f, 0xe606, 0xd49d, 0xc514, 0xb1ab, 0xa022, 0x92b9, 0x8330],
    [0x7bc7, 0x6a4e, 0x58d5, 0x495c, 0x3de3, 0x2c6a, 0x1ef1, 0x0f78]
  ]

  function Table2(row: bv8): (entries: seq<bv32>)
    requires row < 32
    ensures |entries| == 8
  {
    var r := (row & 7) as nat;
    if row < 8 then TABLE2_0[r] else if row < 16 then TABLE2_1[r] else if row < 24 then TABLE2_2[r] else TABLE2_3[r]
  }

  function Entry1(i: bv8): (r: bv32)
  {
    Table1(i >> 3)[(i & 7) as nat]
  }

  function Entry2(i: bv8): (r: bv32)
  {
    Table2(i >> 3)[(i & 7) as nat]
  }

  // One step of the division by each polynomial, and eight of them.

  function Left(x: bv32): (r: bv32)
  {
    if x & 0x8000 == 0x8000 then ((x << 1) & 0xFFFF) ^ 0x1021 else (x << 1) & 0xFFFF
  }

  function Right(x: bv32): (r: bv32)
  {
    if x & 1 == 1 then (x >> 1) ^ 0x8408 else x >> 1
  }

  function Left8(x: bv32): (r: bv32)
  {
    Left(Left(Left(Left(Left(Left(Left(Left(x))))))))
  }

  function Right8(x: bv32): (r: bv32)
  {
    Right(Right(Right(Right(Right(Right(Right(Right(x))))))))
  }

  // Row `r` of a table holds what division makes of the bytes 8r to 8r+7.

  predicate Row1(r: bv8)
    requires r < 32
  {
    var x := (r as bv32) << 11;
    Table1(r) == [Left8(x), Left8(x | 0x100), Left8(x | 0x200), Left8(x | 0x300),
                         Left8(x | 0x400), Left8(x | 0x500), Left8(x | 0x600), Left8(x | 0x700)]
  }

  predicate Row2(r: bv8)
    requires r < 32
  {
    var x := (r as bv32) << 3;
    Table2(r) == [Right8(x), Right8(x | 1), Right8(x | 2), Right8(x | 3),
                         Right8(x | 4), Right8(x | 5), Right8(x | 6), Right8(x | 7)]
  }

  lemma Rows1_0() ensures Row1(0) && Row1(1) {}
  lemma Rows1_1() ensures Row1(2) && Row1(3) {}
  lemma Rows1_2() ensures Row1(4) && Row1(5) {}
  lemma Rows1_3() ensures Row1(6) && Row1(7) {}
  lemma Rows1_4() ensures Row1(8) && Row1(9) {}
  lemma Rows1_5() ensures Row1(10) && Row1(11) {}
  lemma Rows1_6() ensures Row1(12) && Row1(13) {}
  lemma Rows1_7() ensures Row1(14) && Row1(15) {}
  lemma Rows1_8() ensures Row1(16) && Row1(17) {}
  lemma Rows1_9() ensures Row1(18) && Row1(19) {}
  lemma Rows1_10() ensures Row1(20) && Row1(21) {}
  lemma Rows1_11() ensures Row1(22) && Row1(23) {}
  lemma Rows1_12() ensures Row1(24) && Row1(25) {}
  lemma Rows1_13() ensures Row1(26) && Row1(27) {}
  lemma Rows1_14() ensures Row1(28) && Row1(29) {}
  lemma Rows1_15() ensures Row1(30) && Row1(31) {}

  lemma Rows2_0() ensures Row2(0) && Row2(1) {}
  lemma Rows2_1() ensures Row2(2) && Row2(3) {}
  lemma Rows2_2() ensures Row2(4) && Row2(5) {}
  lemma Rows2_3() ensures Row2(6) && Row2(7) {}
  lemma Rows2_4() ensures Row2(8) && Row2(9) {}
  lemma Rows2_5() ensures Row2(10) && Row2(11) {}
  lemma Rows2_6() ensures Row2(12) && Row2(13) {}
  lemma Rows2_7() ensures Row2(14) && Row2(15) {}
  lemma Rows2_8() ensures Row2(16) && Row2(17) {}
  lemma Rows2_9() ensures Row2(18) && Row2(19) {}
  lemma Rows2_10() ensures Row2(20) && Row2(21) {}
  lemma Rows2_11() ensures Row2(22) && Row2(23) {}
  lemma Rows2_12() ensures Row2(24) && Row2(25) {}
  lemma Rows2_13() ensures Row2(26) && Row2(27) {}
  lemma Rows2_14() ensures Row2(28) && Row2(29) {}
  lemma Rows2_15() ensures Row2(30) && Row2(31) {}

  lemma LowRow1(r: bv8)
    requires r < 16
    ensures Row1(r)
  {
    hide *;
    match r >> 1
    case 0 => Rows1_0();
    case 1 => Rows1_1();
    case 2 => Rows1_2();
    case 3 => Rows1_3();
    case 4 => Rows1_4();
    case 5 => Rows1_5();
    case 6 => Rows1_6();
    case _ => Rows1_7();
  }

  lemma HighRow1(r: bv8)
    requires 16 <= r < 32
    ensures Row1(r)
  {
    hide *;
    match r >> 1
    case 8 => Rows1_8();
    case 9 => Rows1_9();
    case 10 => Rows1_10();
    case 11 => Rows1_11();
    case 12 => Rows1_12();
    case 13 => Rows1_13();
    case 14 => Rows1_14();
    case _ => Rows1_15();
  }

  lemma AnyRow1(r: bv8)
    requires r < 32
    ensures Row1(r)
  {
    hide *;
    if r < 16 {
      LowRow1(r);
    } else {
      HighRow1(r);
    }
  }

  lemma LowRow2(r: bv8)
    requires r < 16
    ensures Row2(r)
  {
    hide *;
    match r >> 1
    case 0 => Rows2_0();
    case 1 => Rows2_1();
    case 2 => Rows2_2();
    case 3 => Rows2_3();
    case 4 => Rows2_4();
    case 5 => Rows2_5();
    case 6 => Rows2_6();
    case _ => Rows2_7();
  }

  lemma HighRow2(r: bv8)
    requires 16 <= r < 32
    ensures Row2(r)
  {
    hide *;
    match r >> 1
    case 8 => Rows2_8();
    case 9 => Rows2_9();
    case 10 => Rows2_10();
    case 11 => Rows2_11();
    case 12 => Rows2_12();
    case 13 => Rows2_13();
    case 14 => Rows2_14();
    case _ => Rows2_15();
  }

  lemma AnyRow2(r: bv8)
    requires r < 32
    ensures Row2(r)
  {
    hide *;
    if r < 16 {
      LowRow2(r);
    } else {
      HighRow2(r);
    }
  }

  /** The tables are right: an entry is what dividing its index, placed where a byte of the
      register falls out, leaves after eight steps. */
  lemma Entry1IsDivision(i: bv8)
    ensures Entry1(i) == Left8((i as bv32) << 8)
  {
    var r, j := i >> 3, i & 7;
    AnyRow1(r);
    IndexParts(i);
    if j == 0 {} else if j == 1 {} else if j == 2 {} else if j == 3 {}
    else if j == 4 {} else if j == 5 {} else if j == 6 {} else {}
  }

  lemma Entry2IsDivision(i: bv8)
    ensures Entry2(i) == Right8(i as bv32)
  {
    var r, j := i >> 3, i & 7;
    AnyRow2(r);
    IndexParts(i);
    if j == 0 {} else if j == 1 {} else if j == 2 {} else if j == 3 {}
    else if j == 4 {} else if j == 5 {} else if j == 6 {} else {}
  }

  lemma IndexParts(i: bv8)
    ensures i as bv32 == ((i >> 3) as bv32 << 3) | ((i & 7) as bv32)
    ensures (i as bv32) << 8 == ((i >> 3) as bv32 << 11) | ((i & 7) as bv32 << 8)
  {
  }
}
