/** Machine words as sequences of bits. */
module Words {
  import opened Bits
  import opened Division

  predicate Bit(x: bv32, mask: bv32) {
    x & mask != 0
  }

  function Mask(i: nat): (m: bv32)
    requires i < 32
  {
    match i
    case 0 => 0x1
    case 1 => 0x2
    case 2 => 0x4
    case 3 => 0x8
    case 4 => 0x10
    case 5 => 0x20
    case 6 => 0x40
    case 7 => 0x80
    case 8 => 0x100
    case 9 => 0x200
    case 10 => 0x400
    case 11 => 0x800
    case 12 => 0x1000
    case 13 => 0x2000
    case 14 => 0x4000
    case 15 => 0x8000
    case 16 => 0x10000
    case 17 => 0x20000
    case 18 => 0x40000
    case 19 => 0x80000
    case 20 => 0x100000
    case 21 => 0x200000
    case 22 => 0x400000
    case 23 => 0x800000
    case 24 => 0x1000000
    case 25 => 0x2000000
    case 26 => 0x4000000
    case 27 => 0x8000000
    case 28 => 0x10000000
    case 29 => 0x20000000
    case 30 => 0x40000000
    case _ => 0x80000000
  }

  /** The bits of a word of width `w`, low bit first. */
  function Low(x: bv32, w: nat): (r: seq<bool>)
    requires w <= 32
    ensures |r| == w && forall i :: 0 <= i < w ==> r[i] == Bit(x, Mask(i))
  {
    seq(w, i requires 0 <= i < w => Bit(x, Mask(i)))
  }

  /** The same, high bit first. */
  function High(x: bv32, w: nat): (r: seq<bool>)
    requires w <= 32
    ensures |r| == w && forall i :: 0 <= i < w ==> r[i] == Bit(x, Mask(w - 1 - i))
  {
    seq(w, i requires 0 <= i < w => Bit(x, Mask(w - 1 - i)))
  }

  // ---------- where the masks lie ----------

  lemma MaskOneBit(i: nat)
    requires i < 32
    ensures Mask(i) & (Mask(i) - 1) == 0
  {
  }

  lemma MaskInByte(i: nat)
    requires i < 8
    ensures Mask(i) & 0xFF == Mask(i)
  {
  }

  lemma MaskAboveByte(i: nat)
    requires 8 <= i < 32
    ensures Mask(i) & 0xFF == 0
  {
  }

  lemma MaskInWord(i: nat)
    requires i < 15
    ensures Mask(i) <= 0x4000
  {
  }

  lemma MaskNextLow(i: nat)
    requires i < 16
    ensures Mask(i + 1) == Mask(i) << 1
  {
  }

  lemma MaskNextHigh(i: nat)
    requires 16 <= i < 31
    ensures Mask(i + 1) == Mask(i) << 1
  {
  }

  lemma MaskNext(i: nat)
    requires i < 31
    ensures Mask(i + 1) == Mask(i) << 1
  {
    hide Mask;
    if i < 16 {
      MaskNextLow(i);
    } else {
      MaskNextHigh(i);
    }
  }

  lemma MaskShift0(i: nat)
    requires i < 8
    ensures Mask(i + 8) == Mask(i) << 8
  {
  }

  lemma MaskShift1(i: nat)
    requires 8 <= i < 16
    ensures Mask(i + 8) == Mask(i) << 8
  {
  }

  lemma MaskShift2(i: nat)
    requires 16 <= i < 24
    ensures Mask(i + 8) == Mask(i) << 8
  {
  }

  lemma MaskShift(i: nat)
    requires i < 24
    ensures Mask(i + 8) == Mask(i) << 8
  {
    hide Mask;
    if i < 8 {
      MaskShift0(i);
    } else if i < 16 {
      MaskShift1(i);
    } else {
      MaskShift2(i);
    }
  }

  // ---------- single bits, under a mask of one bit ----------

  lemma BitXor(x: bv32, y: bv32, z: bv32, m: bv32)
    requires z == x ^ y && m & (m - 1) == 0
    ensures Bit(z, m) == (Bit(x, m) != Bit(y, m))
  {
  }

  lemma BitRight8(x: bv32, y: bv32, m: bv32, n: bv32)
    requires y == x >> 8 && n == m << 8 && m & (m - 1) == 0
    ensures Bit(y, m) == Bit(x, n)
  {
  }

  lemma BitRight8Top(x: bv32, y: bv32, m: bv32)
    requires y == x >> 8 && x <= 0xFFFF && m & 0xFF == 0
    ensures !Bit(y, m)
  {
  }

  lemma BitLeft8(x: bv32, y: bv32, m: bv32, n: bv32)
    requires y == (x << 8) & 0xFFFF && m & 0xFF == m && n == m << 8 && m & (m - 1) == 0
    ensures Bit(y, n) == Bit(x, m)
  {
  }

  lemma BitLeft8Bottom(x: bv32, y: bv32, m: bv32)
    requires y == (x << 8) & 0xFFFF && m & 0xFF == m
    ensures !Bit(y, m)
  {
  }

  lemma BitRight1(x: bv32, y: bv32, m: bv32, n: bv32)
    requires y == x >> 1 && n == m << 1 && m & (m - 1) == 0
    ensures Bit(y, m) == Bit(x, n)
  {
  }

  lemma BitLeft1(x: bv32, y: bv32, m: bv32, n: bv32)
    requires y == (x << 1) & 0xFFFF && n == m << 1 && m <= 0x4000 && m & (m - 1) == 0
    ensures Bit(y, n) == Bit(x, m)
  {
  }

  lemma BitByte(b: bv32, m: bv32)
    requires b <= 0xFF && m & 0xFF == 0
    ensures !Bit(b, m)
  {
  }

  // ---------- words ----------

  lemma XorLow(x: bv32, y: bv32, z: bv32, w: nat)
    requires z == x ^ y && w <= 32
    ensures Low(z, w) == Xor(Low(x, w), Low(y, w))
  {
    hide Mask, Bit;
    forall i | 0 <= i < w
      ensures Low(z, w)[i] == (Low(x, w)[i] != Low(y, w)[i])
    {
      MaskOneBit(i);
      BitXor(x, y, z, Mask(i));
    }
  }

  lemma XorHigh(x: bv32, y: bv32, z: bv32, w: nat)
    requires z == x ^ y && w <= 32
    ensures High(z, w) == Xor(High(x, w), High(y, w))
  {
    hide Mask, Bit;
    forall i | 0 <= i < w
      ensures High(z, w)[i] == (High(x, w)[i] != High(y, w)[i])
    {
      MaskOneBit(w - 1 - i);
      BitXor(x, y, z, Mask(w - 1 - i));
    }
  }

  lemma RightByByte(x: bv32, y: bv32)
    requires x <= 0xFFFF && y == x >> 8
    ensures Low(y, 16) == Low(x, 16)[8..] + Zeros(8)
  {
    hide Mask, Bit;
    forall i | 0 <= i < 16
      ensures Low(y, 16)[i] == (Low(x, 16)[8..] + Zeros(8))[i]
    {
      if i < 8 {
        MaskOneBit(i);
        MaskShift(i);
        BitRight8(x, y, Mask(i), Mask(i + 8));
      } else {
        MaskAboveByte(i);
        BitRight8Top(x, y, Mask(i));
      }
    }
  }

  lemma LeftByByte(x: bv32, y: bv32)
    requires y == (x << 8) & 0xFFFF
    ensures High(y, 16) == High(x, 16)[8..] + Zeros(8)
  {
    hide Mask, Bit;
    forall i | 0 <= i < 16
      ensures High(y, 16)[i] == (High(x, 16)[8..] + Zeros(8))[i]
    {
      if i < 8 {
        MaskInByte(7 - i);
        MaskOneBit(7 - i);
        MaskShift(7 - i);
        BitLeft8(x, y, Mask(7 - i), Mask(7 - i + 8));
      } else {
        MaskInByte(15 - i);
        BitLeft8Bottom(x, y, Mask(15 - i));
      }
    }
  }

  lemma RightByOne(x: bv32, y: bv32, w: nat)
    requires y == x >> 1 && 0 < w <= 32 && !Bit(y, Mask(w - 1))
    ensures Low(y, w) == Next(Low(x, w))
  {
    hide Mask, Bit;
    forall i | 0 <= i < w
      ensures Low(y, w)[i] == Next(Low(x, w))[i]
    {
      if i < w - 1 {
        MaskOneBit(i);
        MaskNext(i);
        BitRight1(x, y, Mask(i), Mask(i + 1));
      }
    }
  }

  lemma LeftByOne(x: bv32, y: bv32)
    requires y == (x << 1) & 0xFFFF && !Bit(y, Mask(0))
    ensures High(y, 16) == Next(High(x, 16))
  {
    hide Mask, Bit;
    forall i | 0 <= i < 16
      ensures High(y, 16)[i] == Next(High(x, 16))[i]
    {
      if i < 15 {
        MaskOneBit(14 - i);
        MaskInWord(14 - i);
        MaskNext(14 - i);
        BitLeft1(x, y, Mask(14 - i), Mask(14 - i + 1));
      }
    }
  }

  /** A byte in a wider word. */
  lemma ByteLow(b: bv32, w: nat)
    requires b <= 0xFF && 8 <= w <= 32
    ensures Low(b, w) == Pad(Low(b, 8), w)
  {
    hide Mask, Bit;
    forall i | 0 <= i < w
      ensures Low(b, w)[i] == Pad(Low(b, 8), w)[i]
    {
      if 8 <= i {
        MaskAboveByte(i);
        BitByte(b, Mask(i));
      }
    }
  }

  lemma ByteHigh(b: bv32, y: bv32)
    requires b <= 0xFF && y == (b << 8) & 0xFFFF
    ensures High(y, 16) == Pad(High(b, 8), 16)
  {
    hide Mask, Bit;
    forall i | 0 <= i < 16
      ensures High(y, 16)[i] == Pad(High(b, 8), 16)[i]
    {
      if i < 8 {
        MaskInByte(7 - i);
        MaskOneBit(7 - i);
        MaskShift(7 - i);
        BitLeft8(b, y, Mask(7 - i), Mask(7 - i + 8));
      } else {
        MaskInByte(15 - i);
        BitLeft8Bottom(b, y, Mask(15 - i));
      }
    }
  }
}
