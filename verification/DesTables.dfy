/** The tables of FIPS 46-3. A position counts the bits of a word from 1, the most significant. */
module DesTables {

  type Position32 = p: int | 1 <= p <= 32 witness 1

  type Position56 = p: int | 1 <= p <= 56 witness 1

  type Position64 = p: int | 1 <= p <= 64 witness 1

  /** Not the last bit of a byte, which is its parity. */
  type KeyPosition = p: int | 1 <= p <= 64 && p % 8 != 0 witness 1

  type Nibble = v: int | 0 <= v < 16

  function Pc1Row(r: nat): (row: seq<KeyPosition>)
    requires r < 8
    ensures |row| == 7
  {
    match r
    case 0 => [57, 49, 41, 33, 25, 17, 9]
    case 1 => [1, 58, 50, 42, 34, 26, 18]
    case 2 => [10, 2, 59, 51, 43, 35, 27]
    case 3 => [19, 11, 3, 60, 52, 44, 36]
    case 4 => [63, 55, 47, 39, 31, 23, 15]
    case 5 => [7, 62, 54, 46, 38, 30, 22]
    case 6 => [14, 6, 61, 53, 45, 37, 29]
    case _ => [21, 13, 5, 28, 20, 12, 4]
  }

  /** Permuted choice 1. */
  function Pc1(): (table: seq<KeyPosition>)
    ensures |table| == 56
  {
    seq(56, i requires 0 <= i < 56 => Pc1Row(i / 7)[i % 7])
  }

  function Pc2Row(r: nat): (row: seq<Position56>)
    requires r < 8
    ensures |row| == 6
  {
    match r
    case 0 => [14, 17, 11, 24, 1, 5]
    case 1 => [3, 28, 15, 6, 21, 10]
    case 2 => [23, 19, 12, 4, 26, 8]
    case 3 => [16, 7, 27, 20, 13, 2]
    case 4 => [41, 52, 31, 37, 47, 55]
    case 5 => [30, 40, 51, 45, 33, 48]
    case 6 => [44, 49, 39, 56, 34, 53]
    case _ => [46, 42, 50, 36, 29, 32]
  }

  /** Permuted choice 2. */
  function Pc2(): (table: seq<Position56>)
    ensures |table| == 48
  {
    seq(48, i requires 0 <= i < 48 => Pc2Row(i / 6)[i % 6])
  }

  /** How far the halves of the key turn before each round key. */
  function IterationShift(): (table: seq<nat>)
    ensures |table| == 16
  {
    [1, 1, 2, 2, 2, 2, 2, 2, 1, 2, 2, 2, 2, 2, 2, 1]
  }

  function InitialPermutationRow(r: nat): (row: seq<Position64>)
    requires r < 8
    ensures |row| == 8
  {
    match r
    case 0 => [58, 50, 42, 34, 26, 18, 10, 2]
    case 1 => [60, 52, 44, 36, 28, 20, 12, 4]
    case 2 => [62, 54, 46, 38, 30, 22, 14, 6]
    case 3 => [64, 56, 48, 40, 32, 24, 16, 8]
    case 4 => [57, 49, 41, 33, 25, 17, 9, 1]
    case 5 => [59, 51, 43, 35, 27, 19, 11, 3]
    case 6 => [61, 53, 45, 37, 29, 21, 13, 5]
    case _ => [63, 55, 47, 39, 31, 23, 15, 7]
  }

  /** The initial permutation. */
  function InitialPermutation(): (table: seq<Position64>)
    ensures |table| == 64
  {
    seq(64, i requires 0 <= i < 64 => InitialPermutationRow(i / 8)[i % 8])
  }

  function FinalPermutationRow(r: nat): (row: seq<Position64>)
    requires r < 8
    ensures |row| == 8
  {
    match r
    case 0 => [40, 8, 48, 16, 56, 24, 64, 32]
    case 1 => [39, 7, 47, 15, 55, 23, 63, 31]
    case 2 => [38, 6, 46, 14, 54, 22, 62, 30]
    case 3 => [37, 5, 45, 13, 53, 21, 61, 29]
    case 4 => [36, 4, 44, 12, 52, 20, 60, 28]
    case 5 => [35, 3, 43, 11, 51, 19, 59, 27]
    case 6 => [34, 2, 42, 10, 50, 18, 58, 26]
    case _ => [33, 1, 41, 9, 49, 17, 57, 25]
  }

  /** The inverse initial permutation. */
  function FinalPermutation(): (table: seq<Position64>)
    ensures |table| == 64
  {
    seq(64, i requires 0 <= i < 64 => FinalPermutationRow(i / 8)[i % 8])
  }

  function ExpansionRow(r: nat): (row: seq<Position32>)
    requires r < 8
    ensures |row| == 6
  {
    match r
    case 0 => [32, 1, 2, 3, 4, 5]
    case 1 => [4, 5, 6, 7, 8, 9]
    case 2 => [8, 9, 10, 11, 12, 13]
    case 3 => [12, 13, 14, 15, 16, 17]
    case 4 => [16, 17, 18, 19, 20, 21]
    case 5 => [20, 21, 22, 23, 24, 25]
    case 6 => [24, 25, 26, 27, 28, 29]
    case _ => [28, 29, 30, 31, 32, 1]
  }

  /** The bits of a half that a round key is added to. */
  function Expansion(): (table: seq<Position32>)
    ensures |table| == 48
  {
    seq(48, i requires 0 <= i < 48 => ExpansionRow(i / 6)[i % 6])
  }

  function PBoxRow(r: nat): (row: seq<Position32>)
    requires r < 8
    ensures |row| == 4
  {
    match r
    case 0 => [16, 7, 20, 21]
    case 1 => [29, 12, 28, 17]
    case 2 => [1, 15, 23, 26]
    case 3 => [5, 18, 31, 10]
    case 4 => [2, 8, 24, 14]
    case 5 => [32, 27, 3, 9]
    case 6 => [19, 13, 30, 6]
    case _ => [22, 11, 4, 25]
  }

  /** The permutation after the substitution. */
  function PBox(): (table: seq<Position32>)
    ensures |table| == 32
  {
    seq(32, i requires 0 <= i < 32 => PBoxRow(i / 4)[i % 4])
  }

  function S1(row: nat): (entries: seq<Nibble>)
    requires row < 4
    ensures |entries| == 16
  {
    match row
    case 0 => [14, 4, 13, 1, 2, 15, 11, 8, 3, 10, 6, 12, 5, 9, 0, 7]
    case 1 => [0, 15, 7, 4, 14, 2, 13, 1, 10, 6, 12, 11, 9, 5, 3, 8]
    case 2 => [4, 1, 14, 8, 13, 6, 2, 11, 15, 12, 9, 7, 3, 10, 5, 0]
    case _ => [15, 12, 8, 2, 4, 9, 1, 7, 5, 11, 3, 14, 10, 0, 6, 13]
  }

  function S2(row: nat): (entries: seq<Nibble>)
    requires row < 4
    ensures |entries| == 16
  {
    match row
    case 0 => [15, 1, 8, 14, 6, 11, 3, 4, 9, 7, 2, 13, 12, 0, 5, 10]
    case 1 => [3, 13, 4, 7, 15, 2, 8, 14, 12, 0, 1, 10, 6, 9, 11, 5]
    case 2 => [0, 14, 7, 11, 10, 4, 13, 1, 5, 8, 12, 6, 9, 3, 2, 15]
    case _ => [13, 8, 10, 1, 3, 15, 4, 2, 11, 6, 7, 12, 0, 5, 14, 9]
  }

  function S3(row: nat): (entries: seq<Nibble>)
    requires row < 4
    ensures |entries| == 16
  {
    match row
    case 0 => [10, 0, 9, 14, 6, 3, 15, 5, 1, 13, 12, 7, 11, 4, 2, 8]
    case 1 => [13, 7, 0, 9, 3, 4, 6, 10, 2, 8, 5, 14, 12, 11, 15, 1]
    case 2 => [13, 6, 4, 9, 8, 15, 3, 0, 11, 1, 2, 12, 5, 10, 14, 7]
    case _ => [1, 10, 13, 0, 6, 9, 8, 7, 4, 15, 14, 3, 11, 5, 2, 12]
  }

  function S4(row: nat): (entries: seq<Nibble>)
    requires row < 4
    ensures |entries| == 16
  {
    match row
    case 0 => [7, 13, 14, 3, 0, 6, 9, 10, 1, 2, 8, 5, 11, 12, 4, 15]
    case 1 => [13, 8, 11, 5, 6, 15, 0, 3, 4, 7, 2, 12, 1, 10, 14, 9]
    case 2 => [10, 6, 9, 0, 12, 11, 7, 13, 15, 1, 3, 14, 5, 2, 8, 4]
    case _ => [3, 15, 0, 6, 10, 1, 13, 8, 9, 4, 5, 11, 12, 7, 2, 14]
  }

  function S5(row: nat): (entries: seq<Nibble>)
    requires row < 4
    ensures |entries| == 16
  {
    match row
    case 0 => [2, 12, 4, 1, 7, 10, 11, 6, 8, 5, 3, 15, 13, 0, 14, 9]
    case 1 => [14, 11, 2, 12, 4, 7, 13, 1, 5, 0, 15, 10, 3, 9, 8, 6]
    case 2 => [4, 2, 1, 11, 10, 13, 7, 8, 15, 9, 12, 5, 6, 3, 0, 14]
    case _ => [11, 8, 12, 7, 1, 14, 2, 13, 6, 15, 0, 9, 10, 4, 5, 3]
  }

  function S6(row: nat): (entries: seq<Nibble>)
    requires row < 4
    ensures |entries| == 16
  {
    match row
    case 0 => [12, 1, 10, 15, 9, 2, 6, 8, 0, 13, 3, 4, 14, 7, 5, 11]
    case 1 => [10, 15, 4, 2, 7, 12, 9, 5, 6, 1, 13, 14, 0, 11, 3, 8]
    case 2 => [9, 14, 15, 5, 2, 8, 12, 3, 7, 0, 4, 10, 1, 13, 11, 6]
    case _ => [4, 3, 2, 12, 9, 5, 15, 10, 11, 14, 1, 7, 6, 0, 8, 13]
  }

  function S7(row: nat): (entries: seq<Nibble>)
    requires row < 4
    ensures |entries| == 16
  {
    match row
    case 0 => [4, 11, 2, 14, 15, 0, 8, 13, 3, 12, 9, 7, 5, 10, 6, 1]
    case 1 => [13, 0, 11, 7, 4, 9, 1, 10, 14, 3, 5, 12, 2, 15, 8, 6]
    case 2 => [1, 4, 11, 13, 12, 3, 7, 14, 10, 15, 6, 8, 0, 5, 9, 2]
    case _ => [6, 11, 13, 8, 1, 4, 10, 7, 9, 5, 0, 15, 14, 2, 3, 12]
  }

  function S8(row: nat): (entries: seq<Nibble>)
    requires row < 4
    ensures |entries| == 16
  {
    match row
    case 0 => [13, 2, 8, 4, 6, 15, 11, 1, 10, 9, 3, 14, 5, 0, 12, 7]
    case 1 => [1, 15, 13, 8, 10, 3, 7, 4, 12, 5, 6, 11, 0, 14, 9, 2]
    case 2 => [7, 11, 4, 1, 9, 12, 14, 2, 0, 6, 10, 13, 15, 3, 5, 8]
    case _ => [2, 1, 14, 7, 4, 10, 8, 13, 15, 12, 9, 0, 3, 5, 6, 11]
  }

  /** The entry of S-box i, counted from 0. */
  function SBox(i: nat, row: nat, column: nat): (v: Nibble)
    requires i < 8 && row < 4 && column < 16
  {
    match i
    case 0 => S1(row)[column]
    case 1 => S2(row)[column]
    case 2 => S3(row)[column]
    case 3 => S4(row)[column]
    case 4 => S5(row)[column]
    case 5 => S6(row)[column]
    case 6 => S7(row)[column]
    case _ => S8(row)[column]
  }

  ghost predicate Undone(k: int)
  {
    0 <= k < 64 ==>
      InitialPermutation()[FinalPermutation()[k] - 1] == k + 1 && FinalPermutation()[InitialPermutation()[k] - 1] == k + 1
  }

  lemma Two00() ensures Undone(0) && Undone(1) {}
  lemma Two01() ensures Undone(2) && Undone(3) {}
  lemma Two02() ensures Undone(4) && Undone(5) {}
  lemma Two03() ensures Undone(6) && Undone(7) {}
  lemma Two04() ensures Undone(8) && Undone(9) {}
  lemma Two05() ensures Undone(10) && Undone(11) {}
  lemma Two06() ensures Undone(12) && Undone(13) {}
  lemma Two07() ensures Undone(14) && Undone(15) {}
  lemma Two08() ensures Undone(16) && Undone(17) {}
  lemma Two09() ensures Undone(18) && Undone(19) {}
  lemma Two10() ensures Undone(20) && Undone(21) {}
  lemma Two11() ensures Undone(22) && Undone(23) {}
  lemma Two12() ensures Undone(24) && Undone(25) {}
  lemma Two13() ensures Undone(26) && Undone(27) {}
  lemma Two14() ensures Undone(28) && Undone(29) {}
  lemma Two15() ensures Undone(30) && Undone(31) {}
  lemma Two16() ensures Undone(32) && Undone(33) {}
  lemma Two17() ensures Undone(34) && Undone(35) {}
  lemma Two18() ensures Undone(36) && Undone(37) {}
  lemma Two19() ensures Undone(38) && Undone(39) {}
  lemma Two20() ensures Undone(40) && Undone(41) {}
  lemma Two21() ensures Undone(42) && Undone(43) {}
  lemma Two22() ensures Undone(44) && Undone(45) {}
  lemma Two23() ensures Undone(46) && Undone(47) {}
  lemma Two24() ensures Undone(48) && Undone(49) {}
  lemma Two25() ensures Undone(50) && Undone(51) {}
  lemma Two26() ensures Undone(52) && Undone(53) {}
  lemma Two27() ensures Undone(54) && Undone(55) {}
  lemma Two28() ensures Undone(56) && Undone(57) {}
  lemma Two29() ensures Undone(58) && Undone(59) {}
  lemma Two30() ensures Undone(60) && Undone(61) {}
  lemma Two31() ensures Undone(62) && Undone(63) {}

  /** The final permutation is the inverse of the initial one, on either side. */
  lemma PermutationsUndone(k: nat)
    requires k < 64
    ensures Undone(k)
  {
    hide *;
    match k / 2
    case 0 => Two00();
    case 1 => Two01();
    case 2 => Two02();
    case 3 => Two03();
    case 4 => Two04();
    case 5 => Two05();
    case 6 => Two06();
    case 7 => Two07();
    case 8 => Two08();
    case 9 => Two09();
    case 10 => Two10();
    case 11 => Two11();
    case 12 => Two12();
    case 13 => Two13();
    case 14 => Two14();
    case 15 => Two15();
    case 16 => Two16();
    case 17 => Two17();
    case 18 => Two18();
    case 19 => Two19();
    case 20 => Two20();
    case 21 => Two21();
    case 22 => Two22();
    case 23 => Two23();
    case 24 => Two24();
    case 25 => Two25();
    case 26 => Two26();
    case 27 => Two27();
    case 28 => Two28();
    case 29 => Two29();
    case 30 => Two30();
    case _ => Two31();
  }
}
