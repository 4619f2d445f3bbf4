/**
 The checksums of the code: two with 16 bits, looked up a byte at a time in a table, in either
 bit order, and one with 32 bits, computed bit by bit. Each is the division by its polynomial.
 */
module Crc {
  import opened Bits
  import opened Division
  import opened Words
  import opened CrcTables

  /** The order in which the bits of a byte enter, and those of the register fall out. */
  datatype Order = LowFirst | HighFirst

  /** A register of 16 bits, kept in the low half of a word. */
  function WordBits(o: Order, x: bv32): (r: seq<bool>)
    ensures |r| == 16
  {
    if o.LowFirst? then Low(x, 16) else High(x, 16)
  }

  function ByteBits(o: Order, b: bv8): (r: seq<bool>)
    ensures |r| == 8
  {
    if o.LowFirst? then Low(b as bv32, 8) else High(b as bv32, 8)
  }

  function MessageBits(o: Order, data: seq<bv8>): (r: seq<bool>)
    ensures |r| == 8 * |data|
  {
    if data == [] then [] else ByteBits(o, data[0]) + MessageBits(o, data[1..])
  }

  function Poly16(o: Order): (r: seq<bool>)
    ensures |r| == 16
  {
    WordBits(o, if o.LowFirst? then 0x8408 else 0x1021)
  }

  function Poly32(): (r: seq<bool>)
    ensures |r| == 32
  {
    Low(0xEDB88320, 32)
  }

  lemma {:induction false} MessageAppend(o: Order, a: seq<bv8>, b: seq<bv8>)
    ensures MessageBits(o, a + b) == MessageBits(o, a) + MessageBits(o, b)
  {
    if a == [] {
      assert a + b == b;
    } else {
      assert (a + b)[1..] == a[1..] + b;
      MessageAppend(o, a[1..], b);
    }
  }

  lemma MessageOne(o: Order, b: bv8)
    ensures MessageBits(o, [b]) == ByteBits(o, b)
  {
    assert [b][1..] == [];
  }

  // ---------- one step of a table polynomial ----------

  lemma StepLow(x: bv32, half: bv32, sum: bv32)
    requires half == x >> 1 && !Bit(half, 0x8000) && sum == half ^ 0x8408
    ensures Step(Low(0x8408, 16), Low(x, 16), false) == Low(if Bit(x, 1) then sum else half, 16)
  {
    assert Mask(15) == 0x8000 && Mask(0) == 1;
    hide Bit, Low, Next, Xor, Mask;
    RightByOne(x, half, 16);
    XorLow(half, 0x8408, sum, 16);
  }

  lemma StepHigh(x: bv32, twice: bv32, sum: bv32)
    requires twice == (x << 1) & 0xFFFF && !Bit(twice, 1) && sum == twice ^ 0x1021
    ensures Step(High(0x1021, 16), High(x, 16), false) == High(if Bit(x, 0x8000) then sum else twice, 16)
  {
    assert Mask(15) == 0x8000 && Mask(0) == 1;
    hide Bit, High, Next, Xor, Mask;
    LeftByOne(x, twice);
    XorHigh(twice, 0x1021, sum, 16);
  }

  lemma StepRight(x: bv32)
    requires x <= 0xFFFF
    ensures Step(Poly16(LowFirst), WordBits(LowFirst, x), false) == WordBits(LowFirst, Right(x))
    ensures Right(x) <= 0xFFFF
  {
    var half := x >> 1;
    HalfBits(x, half);
    RightCases(x, half, half ^ 0x8408);
    hide Bit, Low, Step, Right;
    StepLow(x, half, half ^ 0x8408);
  }

  lemma HalfBits(x: bv32, half: bv32)
    requires x <= 0xFFFF && half == x >> 1
    ensures !Bit(half, 0x8000) && half <= 0x7FFF
  {
  }

  lemma RightCases(x: bv32, half: bv32, sum: bv32)
    requires x <= 0xFFFF && half == x >> 1 && sum == half ^ 0x8408
    ensures Right(x) == if Bit(x, 1) then sum else half
    ensures half <= 0xFFFF && sum <= 0xFFFF
  {
  }

  lemma StepLeft(x: bv32)
    ensures Step(Poly16(HighFirst), WordBits(HighFirst, x), false) == WordBits(HighFirst, Left(x))
    ensures Left(x) <= 0xFFFF
  {
    var twice := (x << 1) & 0xFFFF;
    TwiceBits(x, twice);
    LeftCases(x, twice, twice ^ 0x1021);
    hide Bit, High, Step, Left;
    StepHigh(x, twice, twice ^ 0x1021);
  }

  lemma TwiceBits(x: bv32, twice: bv32)
    requires twice == (x << 1) & 0xFFFF
    ensures !Bit(twice, 1)
  {
  }

  lemma LeftCases(x: bv32, twice: bv32, sum: bv32)
    requires twice == (x << 1) & 0xFFFF && sum == twice ^ 0x1021
    ensures Left(x) == if Bit(x, 0x8000) then sum else twice
    ensures twice <= 0xFFFF && sum <= 0xFFFF
  {
  }

  lemma EightSteps(poly: seq<bool>, r: seq<bool>)
    requires 0 < |r| == |poly|
    ensures Divide(poly, r, Zeros(8))
         == Step(poly, Step(poly, Step(poly, Step(poly, Step(poly, Step(poly, Step(poly, Step(poly, r,
            false), false), false), false), false), false), false), false)
  {
    hide Step, Zeros;
    FourSteps(poly, r, 8);
    FourSteps(poly, Step(poly, Step(poly, Step(poly, Step(poly, r, false), false), false), false), 4);
  }

  lemma FourSteps(poly: seq<bool>, r: seq<bool>, n: nat)
    requires 0 < |r| == |poly| && 4 <= n
    ensures Divide(poly, r, Zeros(n))
         == Divide(poly, Step(poly, Step(poly, Step(poly, Step(poly, r, false), false), false), false), Zeros(n - 4))
  {
    hide Step;
    var s1 := Step(poly, r, false);
    var s2 := Step(poly, s1, false);
    var s3 := Step(poly, s2, false);
    assert Zeros(n)[1..] == Zeros(n - 1) && Zeros(n - 1)[1..] == Zeros(n - 2);
    assert Zeros(n - 2)[1..] == Zeros(n - 3) && Zeros(n - 3)[1..] == Zeros(n - 4);
    assert Divide(poly, r, Zeros(n)) == Divide(poly, s1, Zeros(n - 1)) == Divide(poly, s2, Zeros(n - 2))
        == Divide(poly, s3, Zeros(n - 3));
  }

  // ---------- a byte through the tables ----------

  lemma RightEight(x: bv32)
    requires x <= 0xFFFF
    ensures Divide(Poly16(LowFirst), WordBits(LowFirst, x), Zeros(8)) == WordBits(LowFirst, Right8(x))
    ensures Right8(x) <= 0xFFFF
  {
    hide Right, Step, WordBits, Poly16;
    EightSteps(Poly16(LowFirst), WordBits(LowFirst, x));
    var x1 := Right(x);
    var x2 := Right(x1);
    var x3 := Right(x2);
    var x4 := Right(x3);
    StepRight(x);
    StepRight(x1);
    StepRight(x2);
    StepRight(x3);
    StepRight(x4);
    StepRight(Right(x4));
    StepRight(Right(Right(x4)));
    StepRight(Right(Right(Right(x4))));
  }

  lemma LeftEight(x: bv32)
    ensures Divide(Poly16(HighFirst), WordBits(HighFirst, x), Zeros(8)) == WordBits(HighFirst, Left8(x))
    ensures Left8(x) <= 0xFFFF
  {
    hide Left, Step, WordBits, Poly16;
    EightSteps(Poly16(HighFirst), WordBits(HighFirst, x));
    var x1 := Left(x);
    var x2 := Left(x1);
    var x3 := Left(x2);
    var x4 := Left(x3);
    StepLeft(x);
    StepLeft(x1);
    StepLeft(x2);
    StepLeft(x3);
    StepLeft(x4);
    StepLeft(Left(x4));
    StepLeft(Left(Left(x4)));
    StepLeft(Left(Left(Left(x4))));
  }

  /** The tables hold the entries that the division needs. */
  lemma EntryRight(i: bv8)
    ensures Entry(Poly16(LowFirst), ByteBits(LowFirst, i)) == WordBits(LowFirst, Entry2(i))
    ensures Entry2(i) <= 0xFFFF
  {
    ByteInWord(i);
    hide Low, Divide, Right8, Entry2;
    Entry2IsDivision(i);
    ByteLow(i as bv32, 16);
    RightEight(i as bv32);
  }

  lemma ByteInWord(i: bv8)
    ensures i as bv32 <= 0xFF && ((i as bv32) << 8) & 0xFFFF == (i as bv32) << 8
  {
  }

  lemma EntryLeft(i: bv8)
    ensures Entry(Poly16(HighFirst), ByteBits(HighFirst, i)) == WordBits(HighFirst, Entry1(i))
    ensures Entry1(i) <= 0xFFFF
  {
    ByteInWord(i);
    hide High, Divide, Left8, Entry1;
    Entry1IsDivision(i);
    ByteHigh(i as bv32, (i as bv32) << 8);
    LeftEight((i as bv32) << 8);
  }

  lemma BitLowByte(x: bv32, y: bv32, m: bv32)
    requires y == x & 0xFF && m & 0xFF == m
    ensures Bit(y, m) == Bit(x, m)
  {
  }

  lemma BitHighByte(x: bv32, y: bv32, m: bv32, n: bv32)
    requires y == (x >> 8) & 0xFF && m & 0xFF == m && n == m << 8 && m & (m - 1) == 0
    ensures Bit(y, m) == Bit(x, n)
  {
  }

  lemma FallsOutLow(x: bv32, y: bv32)
    requires y == x & 0xFF
    ensures Low(y, 8) == Low(x, 16)[..8]
  {
    hide Mask, Bit;
    forall i | 0 <= i < 8
      ensures Low(y, 8)[i] == Low(x, 16)[..8][i]
    {
      MaskInByte(i);
      BitLowByte(x, y, Mask(i));
    }
  }

  lemma FallsOutHigh(x: bv32, y: bv32)
    requires y == (x >> 8) & 0xFF
    ensures High(y, 8) == High(x, 16)[..8]
  {
    hide Mask, Bit;
    forall i | 0 <= i < 8
      ensures High(y, 8)[i] == High(x, 16)[..8][i]
    {
      MaskInByte(7 - i);
      MaskOneBit(7 - i);
      MaskShift(7 - i);
      BitHighByte(x, y, Mask(7 - i), Mask(7 - i + 8));
    }
  }

  /** The byte that falls out of the register. */
  function Out(o: Order, crc: bv32): (out: bv32)
    ensures out <= 0xFF
  {
    if o.LowFirst? then crc & 0xFF else (crc >> 8) & 0xFF
  }

  /** The rest of the register, moved up by a byte. */
  function Up(o: Order, crc: bv32): (up: bv32)
  {
    if o.LowFirst? then crc >> 8 else (crc << 8) & 0xFFFF
  }

  /** The index into a table: the byte that falls out, added to the byte that enters. */
  function Index(out: bv32, b: bv8): (i: bv8)
    requires out <= 0xFF
  {
    IndexFits(out, b as bv32, out ^ (b as bv32));
    (out ^ (b as bv32)) as bv8
  }

  lemma IndexFits(out: bv32, b: bv32, i: bv32)
    requires out <= 0xFF && b <= 0xFF && i == out ^ b
    ensures i <= 0xFF
  {
  }

  lemma Widens(x: bv32, i: bv8)
    requires x <= 0xFF && i == x as bv8
    ensures i as bv32 == x
  {
  }

  lemma IndexIsXor(out: bv32, b: bv8)
    requires out <= 0xFF
    ensures Index(out, b) as bv32 == out ^ (b as bv32)
  {
    IndexFits(out, b as bv32, out ^ (b as bv32));
    Widens(out ^ (b as bv32), Index(out, b));
  }

  /** The table entry of the byte that falls out, in either order. */
  function TableEntry(o: Order, i: bv8): (e: bv32)
  {
    if o.LowFirst? then Entry2(i) else Entry1(i)
  }

  lemma EntryIs(o: Order, i: bv8)
    ensures Entry(Poly16(o), ByteBits(o, i)) == WordBits(o, TableEntry(o, i)) && TableEntry(o, i) <= 0xFFFF
  {
    hide Entry, ByteBits, WordBits, Poly16;
    if o.LowFirst? {
      EntryRight(i);
    } else {
      EntryLeft(i);
    }
  }

  lemma IndexLow(out: bv32, b: bv8)
    requires out <= 0xFF
    ensures Low(Index(out, b) as bv32, 8) == Xor(Low(out, 8), Low(b as bv32, 8))
  {
    IndexIsXor(out, b);
    hide Low, Index, Xor;
    XorLow(out, b as bv32, Index(out, b) as bv32, 8);
  }

  lemma IndexHigh(out: bv32, b: bv8)
    requires out <= 0xFF
    ensures High(Index(out, b) as bv32, 8) == Xor(High(out, 8), High(b as bv32, 8))
  {
    IndexIsXor(out, b);
    hide High, Index, Xor;
    XorHigh(out, b as bv32, Index(out, b) as bv32, 8);
  }

  lemma OutBits(o: Order, crc: bv32)
    ensures WordBits(o, crc)[..8] == if o.LowFirst? then Low(Out(o, crc), 8) else High(Out(o, crc), 8)
  {
    hide Low, High;
    if o.LowFirst? {
      FallsOutLow(crc, Out(o, crc));
    } else {
      FallsOutHigh(crc, Out(o, crc));
    }
  }

  lemma IndexBits(o: Order, crc: bv32, b: bv8)
    ensures ByteBits(o, Index(Out(o, crc), b)) == Xor(WordBits(o, crc)[..8], ByteBits(o, b))
  {
    hide Low, High, Index, Xor, Out, WordBits;
    OutBits(o, crc);
    if o.LowFirst? {
      IndexLow(Out(o, crc), b);
    } else {
      IndexHigh(Out(o, crc), b);
    }
  }

  lemma UpBits(o: Order, crc: bv32)
    requires crc <= 0xFFFF
    ensures WordBits(o, Up(o, crc)) == WordBits(o, crc)[8..] + Zeros(8) && Up(o, crc) <= 0xFFFF
  {
    hide Low, High;
    if o.LowFirst? {
      RightByByte(crc, crc >> 8);
    } else {
      LeftByByte(crc, (crc << 8) & 0xFFFF);
    }
  }

  lemma SumBits(o: Order, up: bv32, e: bv32, next: bv32)
    requires next == up ^ e
    ensures WordBits(o, next) == Xor(WordBits(o, up), WordBits(o, e))
  {
    hide Low, High, Xor;
    if o.LowFirst? {
      XorLow(up, e, next, 16);
    } else {
      XorHigh(up, e, next, 16);
    }
  }

  /** One round of the loop over the bytes. */
  function LookUp(o: Order, crc: bv32, b: bv8): (next: bv32)
  {
    Up(o, crc) ^ TableEntry(o, Index(Out(o, crc), b))
  }

  /** Looking up one byte divides by it. */
  lemma LookUpDivides(o: Order, crc: bv32, b: bv8)
    requires crc <= 0xFFFF
    ensures Divide(Poly16(o), WordBits(o, crc), ByteBits(o, b)) == WordBits(o, LookUp(o, crc, b))
    ensures LookUp(o, crc, b) <= 0xFFFF
  {
    hide WordBits, ByteBits, Divide, TableEntry, Entry, Xor, Poly16, Index, Up, Out, LookUp;
    TableStep(Poly16(o), WordBits(o, crc), ByteBits(o, b));
    IndexBits(o, crc, b);
    UpBits(o, crc);
    EntryIs(o, Index(Out(o, crc), b));
    LookUpBits(o, crc, b);
    LookUpFits(o, crc, b);
  }

  lemma LookUpIs(o: Order, crc: bv32, b: bv8)
    ensures LookUp(o, crc, b) == Up(o, crc) ^ TableEntry(o, Index(Out(o, crc), b))
  {
    hide TableEntry, Index, Up, Out;
  }

  lemma LookUpBits(o: Order, crc: bv32, b: bv8)
    ensures WordBits(o, LookUp(o, crc, b))
         == Xor(WordBits(o, Up(o, crc)), WordBits(o, TableEntry(o, Index(Out(o, crc), b))))
  {
    hide WordBits, TableEntry, Xor, Index, Up, Out, LookUp;
    LookUpIs(o, crc, b);
    SumBits(o, Up(o, crc), TableEntry(o, Index(Out(o, crc), b)), LookUp(o, crc, b));
  }

  lemma LookUpFits(o: Order, crc: bv32, b: bv8)
    requires Up(o, crc) <= 0xFFFF && TableEntry(o, Index(Out(o, crc), b)) <= 0xFFFF
    ensures LookUp(o, crc, b) <= 0xFFFF
  {
    hide TableEntry, Index, Up, Out, LookUp;
    LookUpIs(o, crc, b);
    StillWord(Up(o, crc), TableEntry(o, Index(Out(o, crc), b)), LookUp(o, crc, b));
  }

  lemma StillWord(x: bv32, y: bv32, z: bv32)
    requires x <= 0xFFFF && y <= 0xFFFF && z == x ^ y
    ensures z <= 0xFFFF
  {
  }

  // ---------- the code ----------

  /** The register of the loops is the division of the bytes so far. */
  ghost predicate Divided(o: Order, init: bv32, data: seq<bv8>, crc: bv32) {
    crc <= 0xFFFF && WordBits(o, crc) == Divide(Poly16(o), WordBits(o, init), MessageBits(o, data))
  }

  lemma NextByte(o: Order, init: bv32, data: seq<bv8>, crc: bv32, b: bv8)
    requires Divided(o, init, data, crc)
    ensures Divided(o, init, data + [b], LookUp(o, crc, b))
  {
    hide WordBits, ByteBits, MessageBits, Divide, Poly16, LookUp;
    LookUpDivides(o, crc, b);
    MessageAppend(o, data, [b]);
    MessageOne(o, b);
    DivideAppend(Poly16(o), WordBits(o, init), MessageBits(o, data), ByteBits(o, b));
  }

  /** The 16-bit check of data[from..to]. Without any data the code returns the complement of
      the initial value, not the initial value. */
  method Ccitt16(data: seq<bv8>, from: nat, to: nat, init: bv32, revin: bool) returns (crc: bv32)
    requires from <= to <= |data| && init <= 0xFFFF
    ensures from == to ==> crc == !init & 0xFFFF
    ensures from < to ==> Divided(if revin then LowFirst else HighFirst, init, data[from..to], crc)
  {
    hide Divide, MessageBits, WordBits, ByteBits, LookUp, Divided;
    crc := init;
    if to - from <= 0 {
      return !init & 0xFFFF;
    }
    ghost var o := if revin then LowFirst else HighFirst;
    StartDivided(o, init);
    assert data[from..from] == [];
    for i := from to to
      invariant Divided(o, init, data[from..i], crc)
    {
      NextByte(o, init, data[from..i], crc, data[i]);
      if revin {
        crc := LookUp(LowFirst, crc, data[i]);
      } else {
        crc := LookUp(HighFirst, crc, data[i]);
      }
      assert data[from..i + 1] == data[from..i] + [data[i]];
    }
  }

  lemma StartDivided(o: Order, init: bv32)
    requires init <= 0xFFFF
    ensures Divided(o, init, [], init)
  {
    hide WordBits, Poly16;
  }

  /** CRC_A of ISO/IEC 14443-3. */
  method Iso14443A(data: seq<bv8>) returns (crc: bv32)
    ensures data != [] ==> Divided(LowFirst, 0x6363, data, crc)
  {
    crc := Ccitt16(data, 0, |data|, 0x6363, true);
    assert data[0..|data|] == data;
  }

  // ---------- the 32-bit check ----------

  /** One round of the loop over the bits. */
  function Right32(x: bv32): (r: bv32)
  {
    if x & 1 == 1 then (x >> 1) ^ 0xEDB88320 else x >> 1
  }

  lemma HalfOfWord(x: bv32, half: bv32)
    requires half == x >> 1
    ensures !Bit(half, 0x8000_0000)
  {
  }

  lemma Right32Cases(x: bv32, half: bv32, sum: bv32)
    requires half == x >> 1 && sum == half ^ 0xEDB88320
    ensures Right32(x) == if Bit(x, 1) then sum else half
  {
  }

  lemma StepLow32(x: bv32, half: bv32, sum: bv32)
    requires half == x >> 1 && !Bit(half, 0x8000_0000) && sum == half ^ 0xEDB88320
    ensures Step(Poly32(), Low(x, 32), false) == Low(if Bit(x, 1) then sum else half, 32)
  {
    assert Mask(31) == 0x8000_0000 && Mask(0) == 1;
    hide Bit, Low, Next, Xor, Mask;
    RightByOne(x, half, 32);
    XorLow(half, 0xEDB88320, sum, 32);
  }

  lemma Step32(x: bv32)
    ensures Step(Poly32(), Low(x, 32), false) == Low(Right32(x), 32)
  {
    var half := x >> 1;
    HalfOfWord(x, half);
    Right32Cases(x, half, half ^ 0xEDB88320);
    hide Bit, Low, Step, Right32;
    StepLow32(x, half, half ^ 0xEDB88320);
  }

  lemma AddByte(crc: bv32, b: bv32, sum: bv32)
    requires b <= 0xFF && sum == crc ^ b
    ensures Divide(Poly32(), Low(crc, 32), Low(b, 8)) == Divide(Poly32(), Low(sum, 32), Zeros(8))
  {
    hide Low, Divide, Xor;
    XorLow(crc, b, sum, 32);
    ByteLow(b, 32);
    Enter(Poly32(), Low(crc, 32), Low(b, 8));
  }

  ghost predicate Divided32(init: bv32, data: seq<bv8>, crc: bv32) {
    Low(crc, 32) == Divide(Poly32(), Low(init, 32), MessageBits(LowFirst, data))
  }

  /** The inner loop: the byte is added to the register and shifted out of it. */
  method DivideByte(start: bv32, b: bv8) returns (crc: bv32)
    ensures Low(crc, 32) == Divide(Poly32(), Low(start, 32), ByteBits(LowFirst, b))
  {
    ByteInWord(b);
    crc := start ^ (b as bv32);
    AddByte(start, b as bv32, crc);
    hide Low, Divide, Step, Poly32, Right32;
    crc := ShiftOut(crc);
  }

  method ShiftOut(start: bv32) returns (crc: bv32)
    ensures Low(crc, 32) == Divide(Poly32(), Low(start, 32), Zeros(8))
  {
    hide Low, Step, Poly32, Right32;
    crc := start;
    var j := 7;
    while j >= 0
      invariant -1 <= j <= 7
      invariant Divide(Poly32(), Low(crc, 32), Zeros(j + 1)) == Divide(Poly32(), Low(start, 32), Zeros(8))
    {
      Step32(crc);
      assert Zeros(j + 1)[1..] == Zeros(j);
      crc := Right32(crc);
      j := j - 1;
    }
  }

  lemma NextByte32(init: bv32, data: seq<bv8>, crc: bv32, b: bv8, next: bv32)
    requires Divided32(init, data, crc)
    requires Low(next, 32) == Divide(Poly32(), Low(crc, 32), ByteBits(LowFirst, b))
    ensures Divided32(init, data + [b], next)
  {
    hide Low, ByteBits, MessageBits, Divide, Poly32;
    MessageAppend(LowFirst, data, [b]);
    MessageOne(LowFirst, b);
    DivideAppend(Poly32(), Low(init, 32), MessageBits(LowFirst, data), ByteBits(LowFirst, b));
  }

  method Ccitt32(data: seq<bv8>, from: nat, to: nat, init: bv32) returns (crc: bv32)
    requires from <= to <= |data|
    ensures Divided32(init, data[from..to], crc)
  {
    hide *;
    crc := init;
    assert data[from..from] == [];
    StartDivided32(init);
    for i := from to to
      invariant Divided32(init, data[from..i], crc)
    {
      var next := DivideByte(crc, data[i]);
      NextByte32(init, data[from..i], crc, data[i], next);
      assert data[from..i + 1] == data[from..i] + [data[i]];
      crc := next;
    }
  }

  lemma StartDivided32(init: bv32)
    ensures Divided32(init, [], init)
  {
    hide Low, Poly32;
  }
}
