/** What the checksums of the code are good for: a message that carries its own checksum checks
    to zero, and changes within a short stretch are always noticed. */
module CrcDetection {
  import opened Bits
  import opened Division
  import opened Words
  import opened Crc

  lemma Generators(o: Order)
    ensures Proper(Poly16(o)) && Proper(Poly32())
  {
    assert Mask(15) == 0x8000 && Mask(0) == 1 && Mask(31) == 0x8000_0000;
  }

  // ---------- a message with its own check ----------

  function LowByte(x: bv32): (b: bv8)
  {
    (x & 0xFF) as bv8
  }

  function HighByte(x: bv32): (b: bv8)
  {
    ((x >> 8) & 0xFF) as bv8
  }

  /** The check as it is sent: the byte that falls out of the register first goes first. */
  function CheckBytes(o: Order, crc: bv32): (bytes: seq<bv8>)
  {
    if o.LowFirst? then [LowByte(crc), HighByte(crc)] else [HighByte(crc), LowByte(crc)]
  }

  lemma BitOfLow(x: bv32, m: bv32)
    requires m & 0xFF == m
    ensures Bit(LowByte(x) as bv32, m) == Bit(x, m)
  {
  }

  lemma BitOfHigh(x: bv32, m: bv32, n: bv32)
    requires m & 0xFF == m && n == m << 8 && m & (m - 1) == 0
    ensures Bit(HighByte(x) as bv32, m) == Bit(x, n)
  {
  }

  lemma LowerAndUpper(x: bv32)
    requires x <= 0xFFFF
    ensures Low(x, 16) == Low(LowByte(x) as bv32, 8) + Low(HighByte(x) as bv32, 8)
    ensures High(x, 16) == High(HighByte(x) as bv32, 8) + High(LowByte(x) as bv32, 8)
  {
    hide Mask, Bit, LowByte, HighByte;
    forall i | 0 <= i < 16
      ensures Low(x, 16)[i] == (Low(LowByte(x) as bv32, 8) + Low(HighByte(x) as bv32, 8))[i]
      ensures High(x, 16)[15 - i] == (High(HighByte(x) as bv32, 8) + High(LowByte(x) as bv32, 8))[15 - i]
    {
      if i < 8 {
        MaskInByte(i);
        BitOfLow(x, Mask(i));
      } else {
        MaskInByte(i - 8);
        MaskOneBit(i - 8);
        MaskShift(i - 8);
        BitOfHigh(x, Mask(i - 8), Mask(i - 8 + 8));
      }
    }
    assert forall j :: 0 <= j < 16 ==> High(x, 16)[j] == High(x, 16)[15 - (15 - j)];
  }

  lemma WordInBytes(x: bv32)
    requires x <= 0xFFFF
    ensures WordBits(LowFirst, x) == ByteBits(LowFirst, LowByte(x)) + ByteBits(LowFirst, HighByte(x))
    ensures WordBits(HighFirst, x) == ByteBits(HighFirst, HighByte(x)) + ByteBits(HighFirst, LowByte(x))
  {
    hide Low, High, Bit, Mask, LowByte, HighByte;
    LowerAndUpper(x);
  }

  lemma CheckBits(o: Order, crc: bv32)
    requires crc <= 0xFFFF
    ensures MessageBits(o, CheckBytes(o, crc)) == WordBits(o, crc)
  {
    hide LowByte, HighByte, MessageBits, ByteBits, WordBits;
    WordInBytes(crc);
    TwoBytes(o, CheckBytes(o, crc));
  }

  lemma TwoBytes(o: Order, bs: seq<bv8>)
    requires |bs| == 2
    ensures MessageBits(o, bs) == ByteBits(o, bs[0]) + ByteBits(o, bs[1])
  {
    assert bs[1..] == [bs[1]];
    MessageOne(o, bs[1]);
  }

  lemma ZeroWord(o: Order)
    ensures WordBits(o, 0) == Zeros(16)
  {
  }

  // ---------- the check is determined ----------

  lemma SameBits(x: bv8, y: bv8)
    requires x & 1 == y & 1 && x & 2 == y & 2 && x & 4 == y & 4 && x & 8 == y & 8
    requires x & 16 == y & 16 && x & 32 == y & 32 && x & 64 == y & 64 && x & 128 == y & 128
    ensures x == y
  {
  }

  lemma SameBit(x: bv8, y: bv8, m: bv8)
    requires m & (m - 1) == 0 && (Bit(x as bv32, m as bv32) <==> Bit(y as bv32, m as bv32))
    ensures x & m == y & m
  {
  }

  lemma LowInjective(x: bv8, y: bv8)
    requires forall i :: 0 <= i < 8 ==> Bit(x as bv32, Mask(i)) == Bit(y as bv32, Mask(i))
    ensures x == y
  {
    assert Mask(0) == 1 && Mask(1) == 2 && Mask(2) == 4 && Mask(3) == 8;
    assert Mask(4) == 16 && Mask(5) == 32 && Mask(6) == 64 && Mask(7) == 128;
    hide Bit, Mask;
    SameBit(x, y, 1);
    SameBit(x, y, 2);
    SameBit(x, y, 4);
    SameBit(x, y, 8);
    SameBit(x, y, 16);
    SameBit(x, y, 32);
    SameBit(x, y, 64);
    SameBit(x, y, 128);
    SameBits(x, y);
  }

  lemma ByteInjective(o: Order, x: bv8, y: bv8)
    requires ByteBits(o, x) == ByteBits(o, y)
    ensures x == y
  {
    hide Bit, Mask;
    forall i | 0 <= i < 8
      ensures Bit(x as bv32, Mask(i)) == Bit(y as bv32, Mask(i))
    {
      var j := if o.LowFirst? then i else 7 - i;
      assert ByteBits(o, x)[j] == ByteBits(o, y)[j];
    }
    LowInjective(x, y);
  }

  lemma {:induction false} MessageInjective(o: Order, a: seq<bv8>, b: seq<bv8>)
    requires |a| == |b| && MessageBits(o, a) == MessageBits(o, b)
    ensures a == b
  {
    hide ByteBits;
    if a != [] {
      assert MessageBits(o, a)[..8] == ByteBits(o, a[0]) && MessageBits(o, b)[..8] == ByteBits(o, b[0]);
      assert MessageBits(o, a)[8..] == MessageBits(o, a[1..]) && MessageBits(o, b)[8..] == MessageBits(o, b[1..]);
      ByteInjective(o, a[0], b[0]);
      MessageInjective(o, a[1..], b[1..]);
    }
  }

  lemma TwoBytesOfWord(x: bv32, y: bv32)
    requires x <= 0xFFFF && y <= 0xFFFF && LowByte(x) == LowByte(y) && HighByte(x) == HighByte(y)
    ensures x == y
  {
    LowByteIs(x, y);
    HighByteIs(x, y);
    SameHalves(x, y);
  }

  lemma LowByteIs(x: bv32, y: bv32)
    requires LowByte(x) == LowByte(y)
    ensures x & 0xFF == y & 0xFF
  {
  }

  lemma HighByteIs(x: bv32, y: bv32)
    requires HighByte(x) == HighByte(y)
    ensures (x >> 8) & 0xFF == (y >> 8) & 0xFF
  {
  }

  lemma SameHalves(x: bv32, y: bv32)
    requires x <= 0xFFFF && y <= 0xFFFF && x & 0xFF == y & 0xFF && (x >> 8) & 0xFF == (y >> 8) & 0xFF
    ensures x == y
  {
  }

  /** A register is known by its bits, and so there is only one check of a message. */
  lemma CheckDetermined(o: Order, init: bv32, data: seq<bv8>, c: bv32, d: bv32)
    requires Divided(o, init, data, c) && Divided(o, init, data, d)
    ensures c == d
  {
    hide WordBits, MessageBits, Divide, Poly16, LowByte, HighByte;
    CheckBits(o, c);
    CheckBits(o, d);
    MessageInjective(o, CheckBytes(o, c), CheckBytes(o, d));
    BytesInOrder(o, c, d);
    TwoBytesOfWord(c, d);
  }

  lemma BytesInOrder(o: Order, c: bv32, d: bv32)
    requires CheckBytes(o, c) == CheckBytes(o, d)
    ensures LowByte(c) == LowByte(d) && HighByte(c) == HighByte(d)
  {
    hide LowByte, HighByte;
    assert CheckBytes(o, c)[0] == CheckBytes(o, d)[0] && CheckBytes(o, c)[1] == CheckBytes(o, d)[1];
  }

  /** Checking a message together with its check gives zero, and nothing else. */
  lemma OwnCheckIsZero(o: Order, init: bv32, data: seq<bv8>, crc: bv32)
    requires Divided(o, init, data, crc)
    ensures forall again :: Divided(o, init, data + CheckBytes(o, crc), again) <==> again == 0
  {
    hide Divided, CheckBytes;
    OwnCheckDivides(o, init, data, crc);
    forall again | Divided(o, init, data + CheckBytes(o, crc), again)
      ensures again == 0
    {
      CheckDetermined(o, init, data + CheckBytes(o, crc), again, 0);
    }
  }

  lemma OwnCheckDivides(o: Order, init: bv32, data: seq<bv8>, crc: bv32)
    requires Divided(o, init, data, crc)
    ensures Divided(o, init, data + CheckBytes(o, crc), 0)
  {
    hide WordBits, MessageBits, Poly16, Divide, CheckBytes;
    CheckBits(o, crc);
    MessageAppend(o, data, CheckBytes(o, crc));
    DivideAppend(Poly16(o), WordBits(o, init), MessageBits(o, data), WordBits(o, crc));
    OwnCheckLeavesZero(Poly16(o), WordBits(o, crc));
    ZeroWord(o);
  }

  function ByteOf(x: bv32, k: nat): (b: bv8)
    requires k < 4
  {
    match k
    case 0 => (x & 0xFF) as bv8
    case 1 => ((x >> 8) & 0xFF) as bv8
    case 2 => ((x >> 16) & 0xFF) as bv8
    case _ => ((x >> 24) & 0xFF) as bv8
  }

  lemma BitOfByte(x: bv32, k: nat, m: bv32, n: bv32)
    requires k < 4 && m & 0xFF == m && m & (m - 1) == 0
    requires n == if k == 0 then m else if k == 1 then m << 8 else if k == 2 then m << 16 else m << 24
    ensures Bit(ByteOf(x, k) as bv32, m) == Bit(x, n)
  {
    match k
    case 0 =>
    case 1 =>
    case 2 =>
    case _ =>
  }

  lemma MaskOfByte(i: nat, k: nat)
    requires i < 8 && k < 4
    ensures Mask(i + 8 * k) == if k == 0 then Mask(i) else if k == 1 then Mask(i) << 8 else if k == 2 then Mask(i) << 16 else Mask(i) << 24
  {
    match k
    case 0 =>
    case 1 =>
    case 2 =>
    case _ =>
  }

  lemma BytesOfWord(x: bv32, k: nat)
    requires k < 4
    ensures Low(x, 32)[8 * k..8 * k + 8] == Low(ByteOf(x, k) as bv32, 8)
  {
    hide Mask, Bit, ByteOf;
    var u, v := Low(x, 32)[8 * k..8 * k + 8], Low(ByteOf(x, k) as bv32, 8);
    forall i | 0 <= i < 8
      ensures u[i] == v[i]
    {
      MaskInByte(i);
      MaskOneBit(i);
      MaskOfByte(i, k);
      BitOfByte(x, k, Mask(i), Mask(i + 8 * k));
    }
  }

  function CheckBytes32(crc: bv32): (bytes: seq<bv8>)
  {
    [ByteOf(crc, 0), ByteOf(crc, 1), ByteOf(crc, 2), ByteOf(crc, 3)]
  }

  lemma CheckBits32(crc: bv32)
    ensures MessageBits(LowFirst, CheckBytes32(crc)) == Low(crc, 32)
  {
    var bs, r := CheckBytes32(crc), Low(crc, 32);
    hide Low, ByteOf, MessageBits;
    BytesOfWord(crc, 0);
    BytesOfWord(crc, 1);
    BytesOfWord(crc, 2);
    BytesOfWord(crc, 3);
    assert bs == bs[..2] + bs[2..];
    MessageAppend(LowFirst, bs[..2], bs[2..]);
    TwoBytes(LowFirst, bs[..2]);
    TwoBytes(LowFirst, bs[2..]);
    FourParts(r);
  }

  lemma FourParts(r: seq<bool>)
    requires |r| == 32
    ensures r == (r[0..8] + r[8..16]) + (r[16..24] + r[24..32])
  {
  }

  lemma Quarter0(x: bv32, y: bv32)
    requires ByteOf(x, 0) == ByteOf(y, 0)
    ensures x & 0xFF == y & 0xFF
  {
  }

  lemma Quarter1(x: bv32, y: bv32)
    requires ByteOf(x, 1) == ByteOf(y, 1)
    ensures x & 0xFF00 == y & 0xFF00
  {
  }

  lemma Quarter2(x: bv32, y: bv32)
    requires ByteOf(x, 2) == ByteOf(y, 2)
    ensures x & 0xFF0000 == y & 0xFF0000
  {
  }

  lemma Quarter3(x: bv32, y: bv32)
    requires ByteOf(x, 3) == ByteOf(y, 3)
    ensures x & 0xFF000000 == y & 0xFF000000
  {
  }

  lemma SameQuarters(x: bv32, y: bv32)
    requires x & 0xFF == y & 0xFF && x & 0xFF00 == y & 0xFF00
    requires x & 0xFF0000 == y & 0xFF0000 && x & 0xFF000000 == y & 0xFF000000
    ensures x == y
  {
  }

  lemma FourBytesOfWord(x: bv32, y: bv32)
    requires ByteOf(x, 0) == ByteOf(y, 0) && ByteOf(x, 1) == ByteOf(y, 1)
    requires ByteOf(x, 2) == ByteOf(y, 2) && ByteOf(x, 3) == ByteOf(y, 3)
    ensures x == y
  {
    hide ByteOf;
    Quarter0(x, y);
    Quarter1(x, y);
    Quarter2(x, y);
    Quarter3(x, y);
    SameQuarters(x, y);
  }

  lemma FourBytesInOrder(x: bv32, y: bv32)
    requires CheckBytes32(x) == CheckBytes32(y)
    ensures ByteOf(x, 0) == ByteOf(y, 0) && ByteOf(x, 1) == ByteOf(y, 1)
    ensures ByteOf(x, 2) == ByteOf(y, 2) && ByteOf(x, 3) == ByteOf(y, 3)
  {
    hide ByteOf;
    assert CheckBytes32(x)[0] == CheckBytes32(y)[0] && CheckBytes32(x)[1] == CheckBytes32(y)[1];
    assert CheckBytes32(x)[2] == CheckBytes32(y)[2] && CheckBytes32(x)[3] == CheckBytes32(y)[3];
  }

  lemma CheckDetermined32(init: bv32, data: seq<bv8>, c: bv32, d: bv32)
    requires Divided32(init, data, c) && Divided32(init, data, d)
    ensures c == d
  {
    hide Low, MessageBits, Divide, Poly32, ByteOf, CheckBytes32;
    CheckBits32(c);
    CheckBits32(d);
    SameLength32(c, d);
    MessageInjective(LowFirst, CheckBytes32(c), CheckBytes32(d));
    FourBytesInOrder(c, d);
    FourBytesOfWord(c, d);
  }

  lemma SameLength32(c: bv32, d: bv32)
    ensures |CheckBytes32(c)| == |CheckBytes32(d)|
  {
    hide ByteOf;
  }

  /** The same for the check of 32 bits. */
  lemma OwnCheckIsZero32(init: bv32, data: seq<bv8>, crc: bv32)
    requires Divided32(init, data, crc)
    ensures forall again :: Divided32(init, data + CheckBytes32(crc), again) <==> again == 0
  {
    hide Divided32, CheckBytes32;
    OwnCheckDivides32(init, data, crc);
    forall again | Divided32(init, data + CheckBytes32(crc), again)
      ensures again == 0
    {
      CheckDetermined32(init, data + CheckBytes32(crc), again, 0);
    }
  }

  lemma OwnCheckDivides32(init: bv32, data: seq<bv8>, crc: bv32)
    requires Divided32(init, data, crc)
    ensures Divided32(init, data + CheckBytes32(crc), 0)
  {
    assert Low(0, 32) == Zeros(32);
    hide Low, MessageBits, Poly32, Divide, CheckBytes32;
    CheckBits32(crc);
    MessageAppend(LowFirst, data, CheckBytes32(crc));
    DivideAppend(Poly32(), Low(init, 32), MessageBits(LowFirst, data), Low(crc, 32));
    OwnCheckLeavesZero(Poly32(), Low(crc, 32));
  }

  // ---------- changes are noticed ----------

  lemma MessageParts(o: Order, pre: seq<bv8>, a: seq<bv8>, post: seq<bv8>)
    ensures MessageBits(o, pre + a + post) == MessageBits(o, pre) + MessageBits(o, a) + MessageBits(o, post)
  {
    hide MessageBits;
    MessageAppend(o, pre, a);
    MessageAppend(o, pre + a, post);
  }

  /** Messages that differ within two consecutive bytes have different 16-bit checks. */
  lemma NoCollision16(o: Order, init: bv32, pre: seq<bv8>, a: seq<bv8>, b: seq<bv8>, post: seq<bv8>, c: bv32, d: bv32)
    requires |a| == |b| <= 2 && a != b
    requires Divided(o, init, pre + a + post, c) && Divided(o, init, pre + b + post, d)
    ensures c != d
  {
    Generators(o);
    hide MessageBits, WordBits, Poly16, Divide;
    MessageParts(o, pre, a, post);
    MessageParts(o, pre, b, post);
    if MessageBits(o, a) == MessageBits(o, b) {
      MessageInjective(o, a, b);
    }
    BurstDetected(Poly16(o), WordBits(o, init), MessageBits(o, pre), MessageBits(o, a), MessageBits(o, b), MessageBits(o, post));
  }

  /** Messages that differ within four consecutive bytes have different 32-bit checks. */
  lemma NoCollision32(init: bv32, pre: seq<bv8>, a: seq<bv8>, b: seq<bv8>, post: seq<bv8>, c: bv32, d: bv32)
    requires |a| == |b| <= 4 && a != b
    requires Divided32(init, pre + a + post, c) && Divided32(init, pre + b + post, d)
    ensures c != d
  {
    Generators(LowFirst);
    hide MessageBits, Low, Poly32, Divide;
    MessageParts(LowFirst, pre, a, post);
    MessageParts(LowFirst, pre, b, post);
    if MessageBits(LowFirst, a) == MessageBits(LowFirst, b) {
      MessageInjective(LowFirst, a, b);
    }
    BurstDetected(Poly32(), Low(init, 32), MessageBits(LowFirst, pre), MessageBits(LowFirst, a), MessageBits(LowFirst, b),
                  MessageBits(LowFirst, post));
  }
}
