/** Sequences of bytes: as bits, as numbers written with the most significant byte first, and
    shifted by a bit. */
module Bytes {
  import opened Bits

  // ---------- bits ----------

  function ByteBits(b: bv8): (w: Word)
    ensures |w| == 8
  {
    [b & 0x80 != 0, b & 0x40 != 0, b & 0x20 != 0, b & 0x10 != 0, b & 0x08 != 0, b & 0x04 != 0, b & 0x02 != 0, b & 0x01 != 0]
  }

  function BitsByte(w: Word): (b: bv8)
    requires |w| == 8
  {
    (if w[0] then 0x80 else 0) | (if w[1] then 0x40 else 0) | (if w[2] then 0x20 else 0) | (if w[3] then 0x10 else 0) |
    (if w[4] then 0x08 else 0) | (if w[5] then 0x04 else 0) | (if w[6] then 0x02 else 0) | (if w[7] then 0x01 else 0)
  }

  lemma ByteRoundTrip(b: bv8)
    ensures BitsByte(ByteBits(b)) == b
  {
  }

  lemma BitsRoundTrip(w: Word)
    requires |w| == 8
    ensures ByteBits(BitsByte(w)) == w
  {
  }

  function Split(s: seq<bv8>): (w: Word)
    ensures |w| == 8 * |s|
  {
    if s == [] then [] else Split(s[..|s| - 1]) + ByteBits(s[|s| - 1])
  }

  function Join(w: Word): (s: seq<bv8>)
    requires |w| % 8 == 0
    ensures |w| == 8 * |s|
  {
    if w == [] then [] else Join(w[..|w| - 8]) + [BitsByte(w[|w| - 8..])]
  }

  lemma JoinAppend(w: Word, b: bv8)
    requires |w| % 8 == 0
    ensures Join(w + ByteBits(b)) == Join(w) + [b]
  {
    hide ByteBits, BitsByte;
    var whole := w + ByteBits(b);
    assert whole[..|whole| - 8] == w && whole[|whole| - 8..] == ByteBits(b);
    ByteRoundTrip(b);
  }

  lemma {:induction false} JoinSplit(s: seq<bv8>)
    ensures Join(Split(s)) == s
  {
    hide ByteBits, BitsByte, Join;
    if s == [] {
      assert Split(s) == [];
      JoinNothing();
    } else {
      JoinSplit(s[..|s| - 1]);
      JoinAppend(Split(s[..|s| - 1]), s[|s| - 1]);
    }
  }

  lemma JoinNothing()
    ensures Join([]) == []
  {
  }

  lemma {:induction false} SplitJoin(w: Word)
    requires |w| % 8 == 0
    ensures Split(Join(w)) == w
    decreases |w|
  {
    hide ByteBits, BitsByte;
    if w != [] {
      var s := Join(w);
      SplitJoin(w[..|w| - 8]);
      assert s[..|s| - 1] == Join(w[..|w| - 8]);
      BitsRoundTrip(w[|w| - 8..]);
      assert w[..|w| - 8] + w[|w| - 8..] == w;
    }
  }

  function XorByte(x: bv8, y: bv8): (r: bv8)
  {
    x ^ y
  }

  function XorBytes(a: seq<bv8>, b: seq<bv8>): (r: seq<bv8>)
    requires |a| == |b|
    ensures |r| == |a|
  {
    seq(|a|, i requires 0 <= i < |a| => XorByte(a[i], b[i]))
  }

  lemma XorBytesLaws(a: seq<bv8>, b: seq<bv8>)
    requires |a| == |b|
    ensures XorBytes(XorBytes(a, b), b) == a
    ensures XorBytes(a, b) == XorBytes(b, a)
  {
  }

  // ---------- numbers ----------

  function Value(s: seq<bv8>): (v: nat)
  {
    if s == [] then 0 else 256 * Value(s[..|s| - 1]) + s[|s| - 1] as nat
  }

  function Power(n: nat): (p: nat)
    ensures p > 0
  {
    if n == 0 then 1 else 256 * Power(n - 1)
  }

  lemma {:induction false} ValueBound(s: seq<bv8>)
    ensures Value(s) < Power(|s|)
  {
    if s != [] {
      ValueBound(s[..|s| - 1]);
    }
  }

  // ---------- shifts by one bit ----------

  /** A byte shifted left, taking in the bit that leaves the byte after it. */
  function LeftByte(x: bv8, carry: bv8): (r: bv8)
  {
    (x << 1) | carry
  }

  function Leaving(x: bv8): (carry: bv8)
    ensures carry <= 1
  {
    x >> 7
  }

  function RightByte(x: bv8, before: bv8): (r: bv8)
  {
    (x >> 1) | (before << 7)
  }

  function ShiftedLeft(s: seq<bv8>, carry: bv8): (r: seq<bv8>)
    ensures |r| == |s|
  {
    seq(|s|, i requires 0 <= i < |s| => LeftByte(s[i], if i + 1 < |s| then Leaving(s[i + 1]) else carry))
  }

  function ShiftedRight(s: seq<bv8>): (r: seq<bv8>)
    ensures |r| == |s|
  {
    seq(|s|, i requires 0 <= i < |s| => RightByte(s[i], if i > 0 then s[i - 1] else 0))
  }

  lemma DoubleByte(x: bv8, carry: bv8)
    requires carry <= 1
    ensures 2 * (x as nat) + carry as nat == 256 * (Leaving(x) as nat) + LeftByte(x, carry) as nat
  {
  }

  lemma HalveByte(x: bv8, before: bv8)
    ensures 2 * (RightByte(x, before) as nat) + (x & 1) as nat == x as nat + 256 * ((before & 1) as nat)
  {
  }

  /** The bit that is shifted out of the whole. */
  function Top(s: seq<bv8>, carry: bv8): (b: bv8)
  {
    if s == [] then carry else Leaving(s[0])
  }

  /** Shifting left doubles the number, and what does not fit is the bit that is shifted out. */
  lemma {:induction false} LeftDoubles(s: seq<bv8>, carry: bv8)
    requires carry <= 1
    ensures 2 * Value(s) + carry as nat == Top(s, carry) as nat * Power(|s|) + Value(ShiftedLeft(s, carry))
  {
    hide LeftByte, Leaving;
    if s != [] {
      var t, x := s[..|s| - 1], s[|s| - 1];
      var inner := ShiftedLeft(t, Leaving(x));
      LeftDoubles(t, Leaving(x));
      DoubleByte(x, carry);
      assert ShiftedLeft(s, carry)[..|t|] == inner;
      assert Top(t, Leaving(x)) == Top(s, carry);
      Scale(Top(s, carry) as nat, Power(|t|));
    }
  }

  lemma Scale(a: nat, p: nat)
    ensures 256 * (a * p) == a * (256 * p)
  {
  }

  /** Without a bit coming in, the doubling is modulo the size of the buffer. */
  lemma LeftIsDoubling(s: seq<bv8>)
    ensures Value(ShiftedLeft(s, 0)) == 2 * Value(s) % Power(|s|)
    ensures s != [] ==> (Leaving(s[0]) == 1 <==> 2 * Value(s) >= Power(|s|))
  {
    hide LeftByte, Value, Power, ShiftedLeft;
    LeftDoubles(s, 0);
    ValueBound(ShiftedLeft(s, 0));
    Remainder(2 * Value(s), Top(s, 0), Power(|s|), Value(ShiftedLeft(s, 0)));
  }

  lemma Remainder(v: nat, top: bv8, p: nat, r: nat)
    requires v == top as nat * p + r && r < p && top <= 1
    ensures v % p == r && (top == 1 <==> v >= p)
  {
    if top == 0 {
      assert top as nat == 0;
      assert v == r;
    } else {
      assert top == 1;
      assert top as nat == 1;
      assert v == p + r;
    }
  }

  /** Shifting right halves the number. */
  lemma {:induction false} RightHalves(s: seq<bv8>)
    ensures s != [] ==> 2 * Value(ShiftedRight(s)) + (s[|s| - 1] & 1) as nat == Value(s)
  {
    hide RightByte;
    if |s| == 1 {
      HalveByte(s[0], 0);
      RightOne(s);
    } else if |s| > 1 {
      var t, x := s[..|s| - 1], s[|s| - 1];
      RightHalves(t);
      RightSplit(s);
      HalveByte(x, t[|t| - 1]);
    }
  }

  lemma RightOne(s: seq<bv8>)
    requires |s| == 1
    ensures Value(ShiftedRight(s)) == RightByte(s[0], 0) as nat && Value(s) == s[0] as nat
  {
    hide RightByte;
    assert s[..0] == [] && ShiftedRight(s)[..0] == [];
  }

  lemma RightSplit(s: seq<bv8>)
    requires |s| > 1
    ensures var t := s[..|s| - 1];
            Value(ShiftedRight(s)) == 256 * Value(ShiftedRight(t)) + RightByte(s[|s| - 1], t[|t| - 1]) as nat
  {
    hide RightByte;
    assert ShiftedRight(s)[..|s| - 1] == ShiftedRight(s[..|s| - 1]);
  }
}
