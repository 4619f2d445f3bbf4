/** The substitution tables of AES, sixteen entries a row. */
module AesTables {
  import opened Galois

  const S_BOX_0: seq<seq<bv8>> := [
    [0x63, 0x7C, 0x77, 0x7B, 0xF2, 0x6B, 0x6F, 0xC5, 0x30, 0x01, 0x67, 0x2B, 0xFE, 0xD7, 0xAB, 0x76],
    [0xCA, 0x82, 0xC9, 0x7D, 0xFA, 0x59, 0x47, 0xF0, 0xAD, 0xD4, 0xA2, 0xAF, 0x9C, 0xA4, 0x72, 0xC0],
    [0xB7, 0xFD, 0x93, 0x26, 0x36, 0x3F, 0xF7, 0xCC, 0x34, 0xA5, 0xE5, 0xF1, 0x71, 0xD8, 0x31, 0x15],
    [0x04, 0xC7, 0x23, 0xC3, 0x18, 0x96, 0x05, 0x9A, 0x07, 0x12, 0x80, 0xE2, 0xEB, 0x27, 0xB2, 0x75]
  ]

  const S_BOX_1: seq<seq<bv8>> := [
    [0x09, 0x83, 0x2C, 0x1A, 0x1B, 0x6E, 0x5A, 0xA0, 0x52, 0x3B, 0xD6, 0xB3, 0x29, 0xE3, 0x2F, 0x84],
    [0x53, 0xD1, 0x00, 0xED, 0x20, 0xFC, 0xB1, 0x5B, 0x6A, 0xCB, 0xBE, 0x39, 0x4A, 0x4C, 0x58, 0xCF],
    [0xD0, 0xEF, 0xAA, 0xFB, 0x43, 0x4D, 0x33, 0x85, 0x45, 0xF9, 0x02, 0x7F, 0x50, 0x3C, 0x9F, 0xA8],
    [0x51, 0xA3, 0x40, 0x8F, 0x92, 0x9D, 0x38, 0xF5, 0xBC, 0xB6, 0xDA, 0x21, 0x10, 0xFF, 0xF3, 0xD2]
  ]

  const S_BOX_2: seq<seq<bv8>> := [
    [0xCD, 0x0C, 0x13, 0xEC, 0x5F, 0x97, 0x44, 0x17, 0xC4, 0xA7, 0x7E, 0x3D, 0x64, 0x5D, 0x19, 0x73],
    [0x60, 0x81, 0x4F, 0xDC, 0x22, 0x2A, 0x90, 0x88, 0x46, 0xEE, 0xB8, 0x14, 0xDE, 0x5E, 0x0B, 0xDB],
    [0xE0, 0x32, 0x3A, 0x0A, 0x49, 0x06, 0x24, 0x5C, 0xC2, 0xD3, 0xAC, 0x62, 0x91, 0x95, 0xE4, 0x79],
    [0xE7, 0xC8, 0x37, 0x6D, 0x8D, 0xD5, 0x4E, 0xA9, 0x6C, 0x56, 0xF4, 0xEA, 0x65, 0x7A, 0xAE, 0x08]
  ]

  const S_BOX_3: seq<seq<bv8>> := [
    [0xBA, 0x78, 0x25, 0x2E, 0x1C, 0xA6, 0xB4, 0xC6, 0xE8, 0xDD, 0x74, 0x1F, 0x4B, 0xBD, 0x8B, 0x8A],
    [0x70, 0x3E, 0xB5, 0x66, 0x48, 0x03, 0xF6, 0x0E, 0x61, 0x35, 0x57, 0xB9, 0x86, 0xC1, 0x1D, 0x9E],
    [0xE1, 0xF8, 0x98, 0x11, 0x69, 0xD9, 0x8E, 0x94, 0x9B, 0x1E, 0x87, 0xE9, 0xCE, 0x55, 0x28, 0xDF],
    [0x8C, 0xA1, 0x89, 0x0D, 0xBF, 0xE6, 0x42, 0x68, 0x41, 0x99, 0x2D, 0x0F, 0xB0, 0x54, 0xBB, 0x16]
  ]

  const S_BOX_INVERSE_0: seq<seq<bv8>> := [
    [0x52, 0x09, 0x6A, 0xD5, 0x30, 0x36, 0xA5, 0x38, 0xBF, 0x40, 0xA3, 0x9E, 0x81, 0xF3, 0xD7, 0xFB],
    [0x7C, 0xE3, 0x39, 0x82, 0x9B, 0x2F, 0xFF, 0x87, 0x34, 0x8E, 0x43, 0x44, 0xC4, 0xDE, 0xE9, 0xCB],
    [0x54, 0x7B, 0x94, 0x32, 0xA6, 0xC2, 0x23, 0x3D, 0xEE, 0x4C, 0x95, 0x0B, 0x42, 0xFA, 0xC3, 0x4E],
    [0x08, 0x2E, 0xA1, 0x66, 0x28, 0xD9, 0x24, 0xB2, 0x76, 0x5B, 0xA2, 0x49, 0x6D, 0x8B, 0xD1, 0x25]
  ]

  const S_BOX_INVERSE_1: seq<seq<bv8>> := [
    [0x72, 0xF8, 0xF6, 0x64, 0x86, 0x68, 0x98, 0x16, 0xD4, 0xA4, 0x5C, 0xCC, 0x5D, 0x65, 0xB6, 0x92],
    [0x6C, 0x70, 0x48, 0x50, 0xFD, 0xED, 0xB9, 0xDA, 0x5E, 0x15, 0x46, 0x57, 0xA7, 0x8D, 0x9D, 0x84],
    [0x90, 0xD8, 0xAB, 0x00, 0x8C, 0xBC, 0xD3, 0x0A, 0xF7, 0xE4, 0x58, 0x05, 0xB8, 0xB3, 0x45, 0x06],
    [0xD0, 0x2C, 0x1E, 0x8F, 0xCA, 0x3F, 0x0F, 0x02, 0xC1, 0xAF, 0xBD, 0x03, 0x01, 0x13, 0x8A, 0x6B]
  ]

  const S_BOX_INVERSE_2: seq<seq<bv8>> := [
    [0x3A, 0x91, 0x11, 0x41, 0x4F, 0x67, 0xDC, 0xEA, 0x97, 0xF2, 0xCF, 0xCE, 0xF0, 0xB4, 0xE6, 0x73],
    [0x96, 0xAC, 0x74, 0x22, 0xE7, 0xAD, 0x35, 0x85, 0xE2, 0xF9, 0x37, 0xE8, 0x1C, 0x75, 0xDF, 0x6E],
    [0x47, 0xF1, 0x1A, 0x71, 0x1D, 0x29, 0xC5, 0x89, 0x6F, 0xB7, 0x62, 0x0E, 0xAA, 0x18, 0xBE, 0x1B],
    [0xFC, 0x56, 0x3E, 0x4B, 0xC6, 0xD2, 0x79, 0x20, 0x9A, 0xDB, 0xC0, 0xFE, 0x78, 0xCD, 0x5A, 0xF4]
  ]

  const S_BOX_INVERSE_3: seq<seq<bv8>> := [
    [0x1F, 0xDD, 0xA8, 0x33, 0x88, 0x07, 0xC7, 0x31, 0xB1, 0x12, 0x10, 0x59, 0x27, 0x80, 0xEC, 0x5F],
    [0x60, 0x51, 0x7F, 0xA9, 0x19, 0xB5, 0x4A, 0x0D, 0x2D, 0xE5, 0x7A, 0x9F, 0x93, 0xC9, 0x9C, 0xEF],
    [0xA0, 0xE0, 0x3B, 0x4D, 0xAE, 0x2A, 0xF5, 0xB0, 0xC8, 0xEB, 0xBB, 0x3C, 0x83, 0x53, 0x99, 0x61],
    [0x17, 0x2B, 0x04, 0x7E, 0xBA, 0x77, 0xD6, 0x26, 0xE1, 0x69, 0x14, 0x63, 0x55, 0x21, 0x0C, 0x7D]
  ]

  function Row(row: bv8): (entries: seq<bv8>)
    requires row < 16
    ensures |entries| == 16
  {
    var r := (row & 3) as nat;
    if row < 4 then S_BOX_0[r] else if row < 8 then S_BOX_1[r] else if row < 12 then S_BOX_2[r] else S_BOX_3[r]
  }

  function InverseRow(row: bv8): (entries: seq<bv8>)
    requires row < 16
    ensures |entries| == 16
  {
    var r := (row & 3) as nat;
    if row < 4 then S_BOX_INVERSE_0[r] else if row < 8 then S_BOX_INVERSE_1[r]
    else if row < 12 then S_BOX_INVERSE_2[r] else S_BOX_INVERSE_3[r]
  }

  function SBox(x: bv8): (y: bv8)
  {
    Row(x >> 4)[(x & 15) as nat]
  }

  function InverseSBox(x: bv8): (y: bv8)
  {
    InverseRow(x >> 4)[(x & 15) as nat]
  }

  /** The affine transformation of section 5.1.1 of FIPS 197, and its inverse. */
  function Affine(b: bv8): (r: bv8)
  {
    b ^ b.RotateLeft(1) ^ b.RotateLeft(2) ^ b.RotateLeft(3) ^ b.RotateLeft(4) ^ 0x63
  }

  function Unaffine(r: bv8): (b: bv8)
  {
    r.RotateLeft(1) ^ r.RotateLeft(3) ^ r.RotateLeft(6) ^ 0x05
  }

  lemma AffineBack(r: bv8)
    ensures Affine(Unaffine(r)) == r
  {
  }

  /** Before the affine transformation y is the inverse of x in the field, or both are 0. */
  predicate InField(x: bv8, y: bv8) {
    if x == 0 then Unaffine(y) == 0 else Product(x, Unaffine(y)) == 1
  }

  /** The entries of the two tables for x and y. */
  predicate Pair(x: bv8, y: bv8) {
    SBox(x) == y && InverseSBox(y) == x
  }

  lemma Field0()
    ensures InField(0x00, 0x63) && InField(0x01, 0x7C) && InField(0x02, 0x77) && InField(0x03, 0x7B)
    ensures InField(0x04, 0xF2) && InField(0x05, 0x6B) && InField(0x06, 0x6F) && InField(0x07, 0xC5)
    ensures InField(0x08, 0x30) && InField(0x09, 0x01) && InField(0x0A, 0x67) && InField(0x0B, 0x2B)
    ensures InField(0x0C, 0xFE) && InField(0x0D, 0xD7) && InField(0x0E, 0xAB) && InField(0x0F, 0x76)
  {
  }

  lemma Field1()
    ensures InField(0x10, 0xCA) && InField(0x11, 0x82) && InField(0x12, 0xC9) && InField(0x13, 0x7D)
    ensures InField(0x14, 0xFA) && InField(0x15, 0x59) && InField(0x16, 0x47) && InField(0x17, 0xF0)
    ensures InField(0x18, 0xAD) && InField(0x19, 0xD4) && InField(0x1A, 0xA2) && InField(0x1B, 0xAF)
    ensures InField(0x1C, 0x9C) && InField(0x1D, 0xA4) && InField(0x1E, 0x72) && InField(0x1F, 0xC0)
  {
  }

  lemma Field2()
    ensures InField(0x20, 0xB7) && InField(0x21, 0xFD) && InField(0x22, 0x93) && InField(0x23, 0x26)
    ensures InField(0x24, 0x36) && InField(0x25, 0x3F) && InField(0x26, 0xF7) && InField(0x27, 0xCC)
    ensures InField(0x28, 0x34) && InField(0x29, 0xA5) && InField(0x2A, 0xE5) && InField(0x2B, 0xF1)
    ensures InField(0x2C, 0x71) && InField(0x2D, 0xD8) && InField(0x2E, 0x31) && InField(0x2F, 0x15)
  {
  }

  lemma Field3()
    ensures InField(0x30, 0x04) && InField(0x31, 0xC7) && InField(0x32, 0x23) && InField(0x33, 0xC3)
    ensures InField(0x34, 0x18) && InField(0x35, 0x96) && InField(0x36, 0x05) && InField(0x37, 0x9A)
    ensures InField(0x38, 0x07) && InField(0x39, 0x12) && InField(0x3A, 0x80) && InField(0x3B, 0xE2)
    ensures InField(0x3C, 0xEB) && InField(0x3D, 0x27) && InField(0x3E, 0xB2) && InField(0x3F, 0x75)
  {
  }

  lemma Field4()
    ensures InField(0x40, 0x09) && InField(0x41, 0x83) && InField(0x42, 0x2C) && InField(0x43, 0x1A)
    ensures InField(0x44, 0x1B) && InField(0x45, 0x6E) && InField(0x46, 0x5A) && InField(0x47, 0xA0)
    ensures InField(0x48, 0x52) && InField(0x49, 0x3B) && InField(0x4A, 0xD6) && InField(0x4B, 0xB3)
    ensures InField(0x4C, 0x29) && InField(0x4D, 0xE3) && InField(0x4E, 0x2F) && InField(0x4F, 0x84)
  {
  }

  lemma Field5()
    ensures InField(0x50, 0x53) && InField(0x51, 0xD1) && InField(0x52, 0x00) && InField(0x53, 0xED)
    ensures InField(0x54, 0x20) && InField(0x55, 0xFC) && InField(0x56, 0xB1) && InField(0x57, 0x5B)
    ensures InField(0x58, 0x6A) && InField(0x59, 0xCB) && InField(0x5A, 0xBE) && InField(0x5B, 0x39)
    ensures InField(0x5C, 0x4A) && InField(0x5D, 0x4C) && InField(0x5E, 0x58) && InField(0x5F, 0xCF)
  {
  }

  lemma Field6()
    ensures InField(0x60, 0xD0) && InField(0x61, 0xEF) && InField(0x62, 0xAA) && InField(0x63, 0xFB)
    ensures InField(0x64, 0x43) && InField(0x65, 0x4D) && InField(0x66, 0x33) && InField(0x67, 0x85)
    ensures InField(0x68, 0x45) && InField(0x69, 0xF9) && InField(0x6A, 0x02) && InField(0x6B, 0x7F)
    ensures InField(0x6C, 0x50) && InField(0x6D, 0x3C) && InField(0x6E, 0x9F) && InField(0x6F, 0xA8)
  {
  }

  lemma Field7()
    ensures InField(0x70, 0x51) && InField(0x71, 0xA3) && InField(0x72, 0x40) && InField(0x73, 0x8F)
    ensures InField(0x74, 0x92) && InField(0x75, 0x9D) && InField(0x76, 0x38) && InField(0x77, 0xF5)
    ensures InField(0x78, 0xBC) && InField(0x79, 0xB6) && InField(0x7A, 0xDA) && InField(0x7B, 0x21)
    ensures InField(0x7C, 0x10) && InField(0x7D, 0xFF) && InField(0x7E, 0xF3) && InField(0x7F, 0xD2)
  {
  }

  lemma Field8()
    ensures InField(0x80, 0xCD) && InField(0x81, 0x0C) && InField(0x82, 0x13) && InField(0x83, 0xEC)
    ensures InField(0x84, 0x5F) && InField(0x85, 0x97) && InField(0x86, 0x44) && InField(0x87, 0x17)
    ensures InField(0x88, 0xC4) && InField(0x89, 0xA7) && InField(0x8A, 0x7E) && InField(0x8B, 0x3D)
    ensures InField(0x8C, 0x64) && InField(0x8D, 0x5D) && InField(0x8E, 0x19) && InField(0x8F, 0x73)
  {
  }

  lemma Field9()
    ensures InField(0x90, 0x60) && InField(0x91, 0x81) && InField(0x92, 0x4F) && InField(0x93, 0xDC)
    ensures InField(0x94, 0x22) && InField(0x95, 0x2A) && InField(0x96, 0x90) && InField(0x97, 0x88)
    ensures InField(0x98, 0x46) && InField(0x99, 0xEE) && InField(0x9A, 0xB8) && InField(0x9B, 0x14)
    ensures InField(0x9C, 0xDE) && InField(0x9D, 0x5E) && InField(0x9E, 0x0B) && InField(0x9F, 0xDB)
  {
  }

  lemma FieldA()
    ensures InField(0xA0, 0xE0) && InField(0xA1, 0x32) && InField(0xA2, 0x3A) && InField(0xA3, 0x0A)
    ensures InField(0xA4, 0x49) && InField(0xA5, 0x06) && InField(0xA6, 0x24) && InField(0xA7, 0x5C)
    ensures InField(0xA8, 0xC2) && InField(0xA9, 0xD3) && InField(0xAA, 0xAC) && InField(0xAB, 0x62)
    ensures InField(0xAC, 0x91) && InField(0xAD, 0x95) && InField(0xAE, 0xE4) && InField(0xAF, 0x79)
  {
  }

  lemma FieldB()
    ensures InField(0xB0, 0xE7) && InField(0xB1, 0xC8) && InField(0xB2, 0x37) && InField(0xB3, 0x6D)
    ensures InField(0xB4, 0x8D) && InField(0xB5, 0xD5) && InField(0xB6, 0x4E) && InField(0xB7, 0xA9)
    ensures InField(0xB8, 0x6C) && InField(0xB9, 0x56) && InField(0xBA, 0xF4) && InField(0xBB, 0xEA)
    ensures InField(0xBC, 0x65) && InField(0xBD, 0x7A) && InField(0xBE, 0xAE) && InField(0xBF, 0x08)
  {
  }

  lemma FieldC()
    ensures InField(0xC0, 0xBA) && InField(0xC1, 0x78) && InField(0xC2, 0x25) && InField(0xC3, 0x2E)
    ensures InField(0xC4, 0x1C) && InField(0xC5, 0xA6) && InField(0xC6, 0xB4) && InField(0xC7, 0xC6)
    ensures InField(0xC8, 0xE8) && InField(0xC9, 0xDD) && InField(0xCA, 0x74) && InField(0xCB, 0x1F)
    ensures InField(0xCC, 0x4B) && InField(0xCD, 0xBD) && InField(0xCE, 0x8B) && InField(0xCF, 0x8A)
  {
  }

  lemma FieldD()
    ensures InField(0xD0, 0x70) && InField(0xD1, 0x3E) && InField(0xD2, 0xB5) && InField(0xD3, 0x66)
    ensures InField(0xD4, 0x48) && InField(0xD5, 0x03) && InField(0xD6, 0xF6) && InField(0xD7, 0x0E)
    ensures InField(0xD8, 0x61) && InField(0xD9, 0x35) && InField(0xDA, 0x57) && InField(0xDB, 0xB9)
    ensures InField(0xDC, 0x86) && InField(0xDD, 0xC1) && InField(0xDE, 0x1D) && InField(0xDF, 0x9E)
  {
  }

  lemma FieldE()
    ensures InField(0xE0, 0xE1) && InField(0xE1, 0xF8) && InField(0xE2, 0x98) && InField(0xE3, 0x11)
    ensures InField(0xE4, 0x69) && InField(0xE5, 0xD9) && InField(0xE6, 0x8E) && InField(0xE7, 0x94)
    ensures InField(0xE8, 0x9B) && InField(0xE9, 0x1E) && InField(0xEA, 0x87) && InField(0xEB, 0xE9)
    ensures InField(0xEC, 0xCE) && InField(0xED, 0x55) && InField(0xEE, 0x28) && InField(0xEF, 0xDF)
  {
  }

  lemma FieldF()
    ensures InField(0xF0, 0x8C) && InField(0xF1, 0xA1) && InField(0xF2, 0x89) && InField(0xF3, 0x0D)
    ensures InField(0xF4, 0xBF) && InField(0xF5, 0xE6) && InField(0xF6, 0x42) && InField(0xF7, 0x68)
    ensures InField(0xF8, 0x41) && InField(0xF9, 0x99) && InField(0xFA, 0x2D) && InField(0xFB, 0x0F)
    ensures InField(0xFC, 0xB0) && InField(0xFD, 0x54) && InField(0xFE, 0xBB) && InField(0xFF, 0x16)
  {
  }

  lemma Two00() ensures Pair(0x00, 0x63) && Pair(0x01, 0x7C) {}
  lemma Two01() ensures Pair(0x02, 0x77) && Pair(0x03, 0x7B) {}
  lemma Two02() ensures Pair(0x04, 0xF2) && Pair(0x05, 0x6B) {}
  lemma Two03() ensures Pair(0x06, 0x6F) && Pair(0x07, 0xC5) {}
  lemma Two04() ensures Pair(0x08, 0x30) && Pair(0x09, 0x01) {}
  lemma Two05() ensures Pair(0x0A, 0x67) && Pair(0x0B, 0x2B) {}
  lemma Two06() ensures Pair(0x0C, 0xFE) && Pair(0x0D, 0xD7) {}
  lemma Two07() ensures Pair(0x0E, 0xAB) && Pair(0x0F, 0x76) {}
  lemma Two08() ensures Pair(0x10, 0xCA) && Pair(0x11, 0x82) {}
  lemma Two09() ensures Pair(0x12, 0xC9) && Pair(0x13, 0x7D) {}
  lemma Two0A() ensures Pair(0x14, 0xFA) && Pair(0x15, 0x59) {}
  lemma Two0B() ensures Pair(0x16, 0x47) && Pair(0x17, 0xF0) {}
  lemma Two0C() ensures Pair(0x18, 0xAD) && Pair(0x19, 0xD4) {}
  lemma Two0D() ensures Pair(0x1A, 0xA2) && Pair(0x1B, 0xAF) {}
  lemma Two0E() ensures Pair(0x1C, 0x9C) && Pair(0x1D, 0xA4) {}
  lemma Two0F() ensures Pair(0x1E, 0x72) && Pair(0x1F, 0xC0) {}
  lemma Two10() ensures Pair(0x20, 0xB7) && Pair(0x21, 0xFD) {}
  lemma Two11() ensures Pair(0x22, 0x93) && Pair(0x23, 0x26) {}
  lemma Two12() ensures Pair(0x24, 0x36) && Pair(0x25, 0x3F) {}
  lemma Two13() ensures Pair(0x26, 0xF7) && Pair(0x27, 0xCC) {}
  lemma Two14() ensures Pair(0x28, 0x34) && Pair(0x29, 0xA5) {}
  lemma Two15() ensures Pair(0x2A, 0xE5) && Pair(0x2B, 0xF1) {}
  lemma Two16() ensures Pair(0x2C, 0x71) && Pair(0x2D, 0xD8) {}
  lemma Two17() ensures Pair(0x2E, 0x31) && Pair(0x2F, 0x15) {}
  lemma Two18() ensures Pair(0x30, 0x04) && Pair(0x31, 0xC7) {}
  lemma Two19() ensures Pair(0x32, 0x23) && Pair(0x33, 0xC3) {}
  lemma Two1A() ensures Pair(0x34, 0x18) && Pair(0x35, 0x96) {}
  lemma Two1B() ensures Pair(0x36, 0x05) && Pair(0x37, 0x9A) {}
  lemma Two1C() ensures Pair(0x38, 0x07) && Pair(0x39, 0x12) {}
  lemma Two1D() ensures Pair(0x3A, 0x80) && Pair(0x3B, 0xE2) {}
  lemma Two1E() ensures Pair(0x3C, 0xEB) && Pair(0x3D, 0x27) {}
  lemma Two1F() ensures Pair(0x3E, 0xB2) && Pair(0x3F, 0x75) {}
  lemma Two20() ensures Pair(0x40, 0x09) && Pair(0x41, 0x83) {}
  lemma Two21() ensures Pair(0x42, 0x2C) && Pair(0x43, 0x1A) {}
  lemma Two22() ensures Pair(0x44, 0x1B) && Pair(0x45, 0x6E) {}
  lemma Two23() ensures Pair(0x46, 0x5A) && Pair(0x47, 0xA0) {}
  lemma Two24() ensures Pair(0x48, 0x52) && Pair(0x49, 0x3B) {}
  lemma Two25() ensures Pair(0x4A, 0xD6) && Pair(0x4B, 0xB3) {}
  lemma Two26() ensures Pair(0x4C, 0x29) && Pair(0x4D, 0xE3) {}
  lemma Two27() ensures Pair(0x4E, 0x2F) && Pair(0x4F, 0x84) {}
  lemma Two28() ensures Pair(0x50, 0x53) && Pair(0x51, 0xD1) {}
  lemma Two29() ensures Pair(0x52, 0x00) && Pair(0x53, 0xED) {}
  lemma Two2A() ensures Pair(0x54, 0x20) && Pair(0x55, 0xFC) {}
  lemma Two2B() ensures Pair(0x56, 0xB1) && Pair(0x57, 0x5B) {}
  lemma Two2C() ensures Pair(0x58, 0x6A) && Pair(0x59, 0xCB) {}
  lemma Two2D() ensures Pair(0x5A, 0xBE) && Pair(0x5B, 0x39) {}
  lemma Two2E() ensures Pair(0x5C, 0x4A) && Pair(0x5D, 0x4C) {}
  lemma Two2F() ensures Pair(0x5E, 0x58) && Pair(0x5F, 0xCF) {}
  lemma Two30() ensures Pair(0x60, 0xD0) && Pair(0x61, 0xEF) {}
  lemma Two31() ensures Pair(0x62, 0xAA) && Pair(0x63, 0xFB) {}
  lemma Two32() ensures Pair(0x64, 0x43) && Pair(0x65, 0x4D) {}
  lemma Two33() ensures Pair(0x66, 0x33) && Pair(0x67, 0x85) {}
  lemma Two34() ensures Pair(0x68, 0x45) && Pair(0x69, 0xF9) {}
  lemma Two35() ensures Pair(0x6A, 0x02) && Pair(0x6B, 0x7F) {}
  lemma Two36() ensures Pair(0x6C, 0x50) && Pair(0x6D, 0x3C) {}
  lemma Two37() ensures Pair(0x6E, 0x9F) && Pair(0x6F, 0xA8) {}
  lemma Two38() ensures Pair(0x70, 0x51) && Pair(0x71, 0xA3) {}
  lemma Two39() ensures Pair(0x72, 0x40) && Pair(0x73, 0x8F) {}
  lemma Two3A() ensures Pair(0x74, 0x92) && Pair(0x75, 0x9D) {}
  lemma Two3B() ensures Pair(0x76, 0x38) && Pair(0x77, 0xF5) {}
  lemma Two3C() ensures Pair(0x78, 0xBC) && Pair(0x79, 0xB6) {}
  lemma Two3D() ensures Pair(0x7A, 0xDA) && Pair(0x7B, 0x21) {}
  lemma Two3E() ensures Pair(0x7C, 0x10) && Pair(0x7D, 0xFF) {}
  lemma Two3F() ensures Pair(0x7E, 0xF3) && Pair(0x7F, 0xD2) {}
  lemma Two40() ensures Pair(0x80, 0xCD) && Pair(0x81, 0x0C) {}
  lemma Two41() ensures Pair(0x82, 0x13) && Pair(0x83, 0xEC) {}
  lemma Two42() ensures Pair(0x84, 0x5F) && Pair(0x85, 0x97) {}
  lemma Two43() ensures Pair(0x86, 0x44) && Pair(0x87, 0x17) {}
  lemma Two44() ensures Pair(0x88, 0xC4) && Pair(0x89, 0xA7) {}
  lemma Two45() ensures Pair(0x8A, 0x7E) && Pair(0x8B, 0x3D) {}
  lemma Two46() ensures Pair(0x8C, 0x64) && Pair(0x8D, 0x5D) {}
  lemma Two47() ensures Pair(0x8E, 0x19) && Pair(0x8F, 0x73) {}
  lemma Two48() ensures Pair(0x90, 0x60) && Pair(0x91, 0x81) {}
  lemma Two49() ensures Pair(0x92, 0x4F) && Pair(0x93, 0xDC) {}
  lemma Two4A() ensures Pair(0x94, 0x22) && Pair(0x95, 0x2A) {}
  lemma Two4B() ensures Pair(0x96, 0x90) && Pair(0x97, 0x88) {}
  lemma Two4C() ensures Pair(0x98, 0x46) && Pair(0x99, 0xEE) {}
  lemma Two4D() ensures Pair(0x9A, 0xB8) && Pair(0x9B, 0x14) {}
  lemma Two4E() ensures Pair(0x9C, 0xDE) && Pair(0x9D, 0x5E) {}
  lemma Two4F() ensures Pair(0x9E, 0x0B) && Pair(0x9F, 0xDB) {}
  lemma Two50() ensures Pair(0xA0, 0xE0) && Pair(0xA1, 0x32) {}
  lemma Two51() ensures Pair(0xA2, 0x3A) && Pair(0xA3, 0x0A) {}
  lemma Two52() ensures Pair(0xA4, 0x49) && Pair(0xA5, 0x06) {}
  lemma Two53() ensures Pair(0xA6, 0x24) && Pair(0xA7, 0x5C) {}
  lemma Two54() ensures Pair(0xA8, 0xC2) && Pair(0xA9, 0xD3) {}
  lemma Two55() ensures Pair(0xAA, 0xAC) && Pair(0xAB, 0x62) {}
  lemma Two56() ensures Pair(0xAC, 0x91) && Pair(0xAD, 0x95) {}
  lemma Two57() ensures Pair(0xAE, 0xE4) && Pair(0xAF, 0x79) {}
  lemma Two58() ensures Pair(0xB0, 0xE7) && Pair(0xB1, 0xC8) {}
  lemma Two59() ensures Pair(0xB2, 0x37) && Pair(0xB3, 0x6D) {}
  lemma Two5A() ensures Pair(0xB4, 0x8D) && Pair(0xB5, 0xD5) {}
  lemma Two5B() ensures Pair(0xB6, 0x4E) && Pair(0xB7, 0xA9) {}
  lemma Two5C() ensures Pair(0xB8, 0x6C) && Pair(0xB9, 0x56) {}
  lemma Two5D() ensures Pair(0xBA, 0xF4) && Pair(0xBB, 0xEA) {}
  lemma Two5E() ensures Pair(0xBC, 0x65) && Pair(0xBD, 0x7A) {}
  lemma Two5F() ensures Pair(0xBE, 0xAE) && Pair(0xBF, 0x08) {}
  lemma Two60() ensures Pair(0xC0, 0xBA) && Pair(0xC1, 0x78) {}
  lemma Two61() ensures Pair(0xC2, 0x25) && Pair(0xC3, 0x2E) {}
  lemma Two62() ensures Pair(0xC4, 0x1C) && Pair(0xC5, 0xA6) {}
  lemma Two63() ensures Pair(0xC6, 0xB4) && Pair(0xC7, 0xC6) {}
  lemma Two64() ensures Pair(0xC8, 0xE8) && Pair(0xC9, 0xDD) {}
  lemma Two65() ensures Pair(0xCA, 0x74) && Pair(0xCB, 0x1F) {}
  lemma Two66() ensures Pair(0xCC, 0x4B) && Pair(0xCD, 0xBD) {}
  lemma Two67() ensures Pair(0xCE, 0x8B) && Pair(0xCF, 0x8A) {}
  lemma Two68() ensures Pair(0xD0, 0x70) && Pair(0xD1, 0x3E) {}
  lemma Two69() ensures Pair(0xD2, 0xB5) && Pair(0xD3, 0x66) {}
  lemma Two6A() ensures Pair(0xD4, 0x48) && Pair(0xD5, 0x03) {}
  lemma Two6B() ensures Pair(0xD6, 0xF6) && Pair(0xD7, 0x0E) {}
  lemma Two6C() ensures Pair(0xD8, 0x61) && Pair(0xD9, 0x35) {}
  lemma Two6D() ensures Pair(0xDA, 0x57) && Pair(0xDB, 0xB9) {}
  lemma Two6E() ensures Pair(0xDC, 0x86) && Pair(0xDD, 0xC1) {}
  lemma Two6F() ensures Pair(0xDE, 0x1D) && Pair(0xDF, 0x9E) {}
  lemma Two70() ensures Pair(0xE0, 0xE1) && Pair(0xE1, 0xF8) {}
  lemma Two71() ensures Pair(0xE2, 0x98) && Pair(0xE3, 0x11) {}
  lemma Two72() ensures Pair(0xE4, 0x69) && Pair(0xE5, 0xD9) {}
  lemma Two73() ensures Pair(0xE6, 0x8E) && Pair(0xE7, 0x94) {}
  lemma Two74() ensures Pair(0xE8, 0x9B) && Pair(0xE9, 0x1E) {}
  lemma Two75() ensures Pair(0xEA, 0x87) && Pair(0xEB, 0xE9) {}
  lemma Two76() ensures Pair(0xEC, 0xCE) && Pair(0xED, 0x55) {}
  lemma Two77() ensures Pair(0xEE, 0x28) && Pair(0xEF, 0xDF) {}
  lemma Two78() ensures Pair(0xF0, 0x8C) && Pair(0xF1, 0xA1) {}
  lemma Two79() ensures Pair(0xF2, 0x89) && Pair(0xF3, 0x0D) {}
  lemma Two7A() ensures Pair(0xF4, 0xBF) && Pair(0xF5, 0xE6) {}
  lemma Two7B() ensures Pair(0xF6, 0x42) && Pair(0xF7, 0x68) {}
  lemma Two7C() ensures Pair(0xF8, 0x41) && Pair(0xF9, 0x99) {}
  lemma Two7D() ensures Pair(0xFA, 0x2D) && Pair(0xFB, 0x0F) {}
  lemma Two7E() ensures Pair(0xFC, 0xB0) && Pair(0xFD, 0x54) {}
  lemma Two7F() ensures Pair(0xFE, 0xBB) && Pair(0xFF, 0x16) {}

  ghost predicate Undone(x: bv8) {
    exists y :: Pair(x, y) && InField(x, y)
  }

  lemma Undone0(x: bv8)
    requires x >> 6 == 0
    ensures Undone(x)
  {
    hide Pair, InField;
    match x >> 1
    case 0x00 => Two00(); Field0();
    case 0x01 => Two01(); Field0();
    case 0x02 => Two02(); Field0();
    case 0x03 => Two03(); Field0();
    case 0x04 => Two04(); Field0();
    case 0x05 => Two05(); Field0();
    case 0x06 => Two06(); Field0();
    case 0x07 => Two07(); Field0();
    case 0x08 => Two08(); Field1();
    case 0x09 => Two09(); Field1();
    case 0x0A => Two0A(); Field1();
    case 0x0B => Two0B(); Field1();
    case 0x0C => Two0C(); Field1();
    case 0x0D => Two0D(); Field1();
    case 0x0E => Two0E(); Field1();
    case 0x0F => Two0F(); Field1();
    case 0x10 => Two10(); Field2();
    case 0x11 => Two11(); Field2();
    case 0x12 => Two12(); Field2();
    case 0x13 => Two13(); Field2();
    case 0x14 => Two14(); Field2();
    case 0x15 => Two15(); Field2();
    case 0x16 => Two16(); Field2();
    case 0x17 => Two17(); Field2();
    case 0x18 => Two18(); Field3();
    case 0x19 => Two19(); Field3();
    case 0x1A => Two1A(); Field3();
    case 0x1B => Two1B(); Field3();
    case 0x1C => Two1C(); Field3();
    case 0x1D => Two1D(); Field3();
    case 0x1E => Two1E(); Field3();
    case _ => Two1F(); Field3();
  }

  lemma Undone1(x: bv8)
    requires x >> 6 == 1
    ensures Undone(x)
  {
    hide Pair, InField;
    match x >> 1
    case 0x20 => Two20(); Field4();
    case 0x21 => Two21(); Field4();
    case 0x22 => Two22(); Field4();
    case 0x23 => Two23(); Field4();
    case 0x24 => Two24(); Field4();
    case 0x25 => Two25(); Field4();
    case 0x26 => Two26(); Field4();
    case 0x27 => Two27(); Field4();
    case 0x28 => Two28(); Field5();
    case 0x29 => Two29(); Field5();
    case 0x2A => Two2A(); Field5();
    case 0x2B => Two2B(); Field5();
    case 0x2C => Two2C(); Field5();
    case 0x2D => Two2D(); Field5();
    case 0x2E => Two2E(); Field5();
    case 0x2F => Two2F(); Field5();
    case 0x30 => Two30(); Field6();
    case 0x31 => Two31(); Field6();
    case 0x32 => Two32(); Field6();
    case 0x33 => Two33(); Field6();
    case 0x34 => Two34(); Field6();
    case 0x35 => Two35(); Field6();
    case 0x36 => Two36(); Field6();
    case 0x37 => Two37(); Field6();
    case 0x38 => Two38(); Field7();
    case 0x39 => Two39(); Field7();
    case 0x3A => Two3A(); Field7();
    case 0x3B => Two3B(); Field7();
    case 0x3C => Two3C(); Field7();
    case 0x3D => Two3D(); Field7();
    case 0x3E => Two3E(); Field7();
    case _ => Two3F(); Field7();
  }

  lemma Undone2(x: bv8)
    requires x >> 6 == 2
    ensures Undone(x)
  {
    hide Pair, InField;
    match x >> 1
    case 0x40 => Two40(); Field8();
    case 0x41 => Two41(); Field8();
    case 0x42 => Two42(); Field8();
    case 0x43 => Two43(); Field8();
    case 0x44 => Two44(); Field8();
    case 0x45 => Two45(); Field8();
    case 0x46 => Two46(); Field8();
    case 0x47 => Two47(); Field8();
    case 0x48 => Two48(); Field9();
    case 0x49 => Two49(); Field9();
    case 0x4A => Two4A(); Field9();
    case 0x4B => Two4B(); Field9();
    case 0x4C => Two4C(); Field9();
    case 0x4D => Two4D(); Field9();
    case 0x4E => Two4E(); Field9();
    case 0x4F => Two4F(); Field9();
    case 0x50 => Two50(); FieldA();
    case 0x51 => Two51(); FieldA();
    case 0x52 => Two52(); FieldA();
    case 0x53 => Two53(); FieldA();
    case 0x54 => Two54(); FieldA();
    case 0x55 => Two55(); FieldA();
    case 0x56 => Two56(); FieldA();
    case 0x57 => Two57(); FieldA();
    case 0x58 => Two58(); FieldB();
    case 0x59 => Two59(); FieldB();
    case 0x5A => Two5A(); FieldB();
    case 0x5B => Two5B(); FieldB();
    case 0x5C => Two5C(); FieldB();
    case 0x5D => Two5D(); FieldB();
    case 0x5E => Two5E(); FieldB();
    case _ => Two5F(); FieldB();
  }

  lemma Undone3(x: bv8)
    requires x >> 6 == 3
    ensures Undone(x)
  {
    hide Pair, InField;
    match x >> 1
    case 0x60 => Two60(); FieldC();
    case 0x61 => Two61(); FieldC();
    case 0x62 => Two62(); FieldC();
    case 0x63 => Two63(); FieldC();
    case 0x64 => Two64(); FieldC();
    case 0x65 => Two65(); FieldC();
    case 0x66 => Two66(); FieldC();
    case 0x67 => Two67(); FieldC();
    case 0x68 => Two68(); FieldD();
    case 0x69 => Two69(); FieldD();
    case 0x6A => Two6A(); FieldD();
    case 0x6B => Two6B(); FieldD();
    case 0x6C => Two6C(); FieldD();
    case 0x6D => Two6D(); FieldD();
    case 0x6E => Two6E(); FieldD();
    case 0x6F => Two6F(); FieldD();
    case 0x70 => Two70(); FieldE();
    case 0x71 => Two71(); FieldE();
    case 0x72 => Two72(); FieldE();
    case 0x73 => Two73(); FieldE();
    case 0x74 => Two74(); FieldE();
    case 0x75 => Two75(); FieldE();
    case 0x76 => Two76(); FieldE();
    case 0x77 => Two77(); FieldE();
    case 0x78 => Two78(); FieldF();
    case 0x79 => Two79(); FieldF();
    case 0x7A => Two7A(); FieldF();
    case 0x7B => Two7B(); FieldF();
    case 0x7C => Two7C(); FieldF();
    case 0x7D => Two7D(); FieldF();
    case 0x7E => Two7E(); FieldF();
    case _ => Two7F(); FieldF();
  }

  lemma AnyUndone(x: bv8)
    ensures Undone(x)
  {
    hide *;
    match x >> 6
    case 0 => Undone0(x);
    case 1 => Undone1(x);
    case 2 => Undone2(x);
    case _ => Undone3(x);
  }

  /** The second table inverts the first. */
  lemma SBoxInverts(x: bv8)
    ensures InverseSBox(SBox(x)) == x
  {
    hide SBox, InverseSBox;
    AnyUndone(x);
  }

  /** The first table is the inverse in the field, followed by the affine transformation. */
  lemma SBoxIsInverse(x: bv8)
    ensures SBox(0) == Affine(0)
    ensures x != 0 ==> Mul(x, Unaffine(SBox(x))) == 1
    ensures SBox(x) == Affine(Unaffine(SBox(x)))
  {
    hide SBox, InverseSBox, Product, Unaffine, Affine, Mul;
    AnyUndone(x);
    AnyUndone(0);
    AffineBack(SBox(x));
    AffineBack(SBox(0));
    ProductIsMul(x, Unaffine(SBox(x)));
  }
}
