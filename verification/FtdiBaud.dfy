/**
 Baud rates in libftdi. A rate is made by dividing the chip's clock; divisors have three
 fractional bits, so everything here counts them in eighths.
 */
module FtdiBaud {

  const FRAC_CODE: seq<nat> := [0, 3, 2, 4, 1, 5, 6, 7]
  const ADJUST_UP: seq<nat> := [0, 0, 0, 1, 0, 3, 2, 1]
  const ADJUST_DN: seq<nat> := [0, 0, 0, 1, 0, 1, 2, 3]

  /** The eighths that a fraction code stands for. */
  const FRACTION: seq<nat> := [0, 4, 2, 1, 3, 5, 6, 7]

  const AM_CLK := 24000000
  const H_CLK := 120000000
  const C_CLK := 48000000

  // ---------- the AM chip ----------

  /** The divisors that the AM chip has. */
  predicate Supported(d: int) {
    d == 8 || (16 <= d <= 0x1FFF8 && d % 8 in {0, 1, 2, 4})
  }

  /** The rate that a divisor gives, to the nearest integer. */
  function Estimate(d: int): (e: int)
    requires 0 < d
  {
    (AM_CLK + d / 2) / d
  }

  function Diff(d: int, baud: int): (n: int)
    requires 0 < d
  {
    if Estimate(d) < baud then baud - Estimate(d) else Estimate(d) - baud
  }

  ghost predicate Best(d: int, baud: int) {
    Supported(d) && forall s :: Supported(s) ==> Diff(d, baud) <= Diff(s, baud)
  }

  lemma MulMono(a: int, b: int, d: int)
    requires a <= b && 0 <= d
    ensures a * d <= b * d
  {
  }

  /** A quotient is pinned down by its two bounds. */
  lemma QuotientAtLeast(n: int, d: int, q: int)
    requires 0 < d && q * d <= n
    ensures q <= n / d
  {
    var r := n / d;
    assert n < r * d + d;
    if r < q {
      MulMono(r + 1, q, d);
      assert false;
    }
  }

  lemma QuotientAtMost(n: int, d: int, q: int)
    requires 0 < d && n < q * d + d
    ensures n / d <= q
  {
    var r := n / d;
    assert r * d <= n;
    if q < r {
      MulMono(q + 1, r, d);
      assert false;
    }
  }

  /** A divisor that is not above the exact quotient gives at least the rate. */
  lemma EstimateAbove(d: int, baud: int)
    requires 0 < d && baud * d <= AM_CLK
    ensures baud <= Estimate(d)
  {
    QuotientAtLeast(AM_CLK + d / 2, d, baud);
  }

  lemma EstimateBelow(d: int, baud: int)
    requires 0 < d && AM_CLK <= baud * d
    ensures Estimate(d) <= baud
  {
    QuotientAtMost(AM_CLK + d / 2, d, baud);
  }

  lemma EstimateMonotone(c: int, d: int)
    requires 0 < c <= d
    ensures 0 <= Estimate(d) <= Estimate(c)
  {
    var e := Estimate(d);
    assert e * d <= AM_CLK + d / 2;
    QuotientAtLeast(AM_CLK + d / 2, d, 0);
    if e == 0 {
      QuotientAtLeast(AM_CLK + c / 2, c, 0);
    } else {
      MulMono(1, e, d - c);
      assert e * (d - c) == e * d - e * c;
      QuotientAtLeast(AM_CLK + c / 2, c, e);
    }
  }

  /** The supported divisor that the code finds from the exact quotient `q`: the largest one
      that is not above it. */
  function Down(q: int): (d: int)
    requires 16 <= q
    ensures Supported(d) && d <= q
  {
    var d := q - ADJUST_DN[q % 8];
    if d > 0x1FFF8 then 0x1FFF8 else d
  }

  lemma DownIsLargest(q: int, s: int)
    requires 16 <= q && Supported(s) && s <= q
    ensures s <= Down(q)
  {
    var a, b := q / 8, s / 8;
    if b < a {
      assert s <= 8 * b + 4 < 8 * a;
    }
  }

  /** The next one above `d`, if there is one. */
  function Up(d: int): (u: int)
    requires 16 <= d && d % 8 in {0, 1, 2, 4}
    ensures Supported(u) && u <= d + 4
    ensures if d < 0x1FFF8 then d < u else u == 0x1FFF8
  {
    var u := d + 1 + ADJUST_UP[(d + 1) % 8];
    if u > 0x1FFF8 then 0x1FFF8 else u
  }

  lemma UpIsNext(d: int, s: int)
    requires 16 <= d && d % 8 in {0, 1, 2, 4} && Supported(s) && d < s
    ensures Up(d) <= s
  {
    var a, b := d / 8, s / 8;
    if a < b {
      assert 8 * a + 8 <= 8 * b <= s;
    }
  }

  /** The divisor that round `i` of the search tries. */
  function Try(divisor: int, i: int): (t: int)
    requires 0 <= divisor && 0 <= i <= 1
    ensures 8 <= t
  {
    var t := divisor + i;
    if t <= 8 then 8
    else if divisor < 16 then 16
    else
      var u := t + ADJUST_UP[t % 8];
      if u > 0x1FFF8 then 0x1FFF8 else u
  }

  ghost predicate BestOfTwo(d: int, divisor: int, baud: int)
    requires 0 <= divisor && 0 < d
  {
    var t0, t1 := Try(divisor, 0), Try(divisor, 1);
    (d == t0 || d == t1) && Diff(d, baud) <= Diff(t0, baud) && Diff(d, baud) <= Diff(t1, baud)
  }

  /** The exact quotient between clock and rate. */
  lemma Quotient(baud: int)
    requires 0 < baud
    ensures var q := AM_CLK / baud;
            0 <= q && baud * q <= AM_CLK < baud * (q + 1)
  {
  }

  lemma DiffAbove(c: int, d: int, baud: int)
    requires 0 < c <= d && baud * d <= AM_CLK
    ensures Diff(d, baud) <= Diff(c, baud)
  {
    EstimateAbove(d, baud);
    EstimateMonotone(c, d);
  }

  lemma DiffBelow(c: int, d: int, baud: int)
    requires 0 < c <= d && AM_CLK <= baud * c
    ensures Diff(c, baud) <= Diff(d, baud)
  {
    EstimateBelow(c, baud);
    EstimateMonotone(c, d);
  }

  /** The two tries are the supported divisors around the quotient. */
  lemma Neighbours(q: int, s: int)
    requires 16 <= q && Supported(s)
    ensures var divisor := q - ADJUST_DN[q % 8];
            var t0, t1 := Try(divisor, 0), Try(divisor, 1);
            Supported(t0) && Supported(t1) && t0 <= q && (s <= t0 || q < t1 <= s)
  {
    var divisor := q - ADJUST_DN[q % 8];
    assert Try(divisor, 0) == Down(q) && Try(divisor, 1) == Up(divisor);
    hide Down, Up, Try;
    if s <= q {
      DownIsLargest(q, s);
    } else {
      UpIsNext(divisor, s);
      BetweenTries(q);
    }
  }

  /** Nothing that the chip has lies between the two tries, but the quotient may. */
  lemma BetweenTries(q: int)
    requires 16 <= q < 0x1FFF8
    ensures q < Up(q - ADJUST_DN[q % 8])
  {
  }

  /** Two tries are enough: one at or above the exact rate, the other at or below it. */
  lemma TwoTriesSuffice(d: int, q: int, baud: int)
    requires 0 < baud && 16 <= q && baud * q <= AM_CLK < baud * (q + 1)
    requires 0 < d && BestOfTwo(d, q - ADJUST_DN[q % 8], baud)
    ensures Best(d, baud)
  {
    hide Diff, Try, Estimate;
    forall s | Supported(s)
      ensures Diff(d, baud) <= Diff(s, baud)
    {
      OneTryBeats(d, q, baud, s);
    }
    Neighbours(q, 16);
  }

  lemma OneTryBeats(d: int, q: int, baud: int, s: int)
    requires 0 < baud && 16 <= q && baud * q <= AM_CLK < baud * (q + 1)
    requires 0 < d && BestOfTwo(d, q - ADJUST_DN[q % 8], baud) && Supported(s)
    ensures Diff(d, baud) <= Diff(s, baud)
  {
    hide Diff, Try, Estimate;
    var divisor := q - ADJUST_DN[q % 8];
    var t0, t1 := Try(divisor, 0), Try(divisor, 1);
    Neighbours(q, s);
    if s <= t0 {
      BeatsFaster(s, t0, q, baud);
    } else {
      BeatsSlower(t1, s, q, baud);
    }
  }

  lemma BeatsFaster(c: int, d: int, q: int, baud: int)
    requires 0 < baud && 0 < c <= d <= q && baud * q <= AM_CLK
    ensures Diff(d, baud) <= Diff(c, baud)
  {
    hide Diff, Estimate;
    MulMono(d, q, baud);
    DiffAbove(c, d, baud);
  }

  lemma BeatsSlower(c: int, d: int, q: int, baud: int)
    requires 0 < baud && 0 < q < c <= d && AM_CLK < baud * (q + 1)
    ensures Diff(c, baud) <= Diff(d, baud)
  {
    hide Diff, Estimate;
    MulMono(q + 1, c, baud);
    DiffBelow(c, d, baud);
  }

  /** Below the fractional divisors there are only 8 and 16, and between the rates of the two
      the code always takes 16. */
  lemma SmallDivisors(d: int, q: int, baud: int)
    requires 0 < baud && 0 <= q < 16 && baud * q <= AM_CLK < baud * (q + 1)
    requires 0 < d && BestOfTwo(d, q - ADJUST_DN[q % 8], baud)
    ensures Best(d, baud) <==> !(2250000 < baud <= 2666666)
  {
    assert Estimate(8) == 3000000 && Estimate(16) == 1500000;
    assert 1500000 < baud by { MulMono(q + 1, 16, baud); }
    if 9 <= q {
      MulMono(9, q, baud);
      assert baud <= 2666666 && d == 16;
    } else {
      MulMono(q + 1, 9, baud);
      assert 2666666 < baud;
    }
    if d == 16 && 2250000 < baud {
      assert Supported(8) && Diff(8, baud) < Diff(16, baud);
    } else {
      forall s | Supported(s)
        ensures Diff(d, baud) <= Diff(s, baud)
      {
        if s > 16 {
          MulMono(1500000, baud, 16);
          DiffBelow(16, s, baud);
        }
      }
    }
  }

  /** How the chip reads the encoded divisor. */
  function DecodeDivisor(enc: nat): (d: nat)
  {
    var value := enc % 0x20000;
    if value == 0 then 8
    else if value == 1 then 12
    else
      var code := value / 0x4000;
      8 * (value % 0x4000) + FRACTION[code]
  }

  /** The divisor in the bit fields: 14 bits of whole numbers and three of a fraction code.
      They do not overlap as long as the divisor has 17 bits. */
  function EncodeDivisor(d: nat): (enc: nat)
    requires d < 0x20000
  {
    d / 8 + 0x4000 * FRAC_CODE[d % 8]
  }

  lemma EncodeDecode(d: nat)
    requires 16 <= d < 0x20000
    ensures DecodeDivisor(EncodeDivisor(d)) == d && 2 <= EncodeDivisor(d) < 0x20000
    ensures EncodeDivisor(d) % 0x4000 == d / 8
  {
    hide DecodeDivisor;
    FractionBack(d % 8);
    FieldsApart(d / 8, FRAC_CODE[d % 8]);
    DecodeFields(d / 8, FRAC_CODE[d % 8]);
  }

  lemma DecodeFields(whole: nat, code: nat)
    requires 2 <= whole < 0x4000 && code < 8
    ensures DecodeDivisor(whole + 0x4000 * code) == 8 * whole + FRACTION[code]
  {
    FieldsApart(whole, code);
  }

  lemma FractionBack(f: nat)
    requires f < 8
    ensures FRAC_CODE[f] < 8 && FRACTION[FRAC_CODE[f]] == f
  {
  }

  lemma FieldsApart(whole: nat, code: nat)
    requires whole < 0x4000 && code < 8
    ensures var enc := whole + 0x4000 * code;
            enc % 0x20000 == enc < 0x20000 && enc / 0x4000 == code && enc % 0x4000 == whole
  {
  }

  /** The candidate of one round, moved up to a divisor that the chip has. */
  method TryDivisor(divisor: int, i: int) returns (tryDivisor: int)
    requires 0 <= divisor && 0 <= i <= 1
    ensures tryDivisor == Try(divisor, i)
  {
    tryDivisor := divisor + i;
    if tryDivisor <= 8 {
      tryDivisor := 8;
    } else if divisor < 16 {
      tryDivisor := 16;
    } else {
      tryDivisor := tryDivisor + ADJUST_UP[tryDivisor % 8];
      if tryDivisor > 0x1FFF8 {
        tryDivisor := 0x1FFF8;
      }
    }
  }

  /** The search loop over the two candidates. */
  method SearchAM(divisor: int, baud: int) returns (bestDivisor: int, bestBaud: int)
    requires 0 <= divisor && 0 < baud
    ensures 0 < bestDivisor && bestBaud == Estimate(bestDivisor) && BestOfTwo(bestDivisor, divisor, baud)
  {
    hide Try;
    var bestDiff := 0;
    bestDivisor, bestBaud := 0, 0;
    for i := 0 to 2
      invariant i > 0 ==> 8 <= bestDivisor
      invariant i > 0 ==> bestBaud == Estimate(bestDivisor) && bestDiff == Diff(bestDivisor, baud)
      invariant i == 1 ==> bestDivisor == Try(divisor, 0)
      invariant i == 2 ==> BestOfTwo(bestDivisor, divisor, baud)
    {
      var tryDivisor := TryDivisor(divisor, i);
      var baudEstimate := (AM_CLK + tryDivisor / 2) / tryDivisor;
      var baudDiff := if baudEstimate < baud then baud - baudEstimate else baudEstimate - baud;
      if i == 0 || baudDiff < bestDiff {
        bestDivisor := tryDivisor;
        bestBaud := baudEstimate;
        bestDiff := baudDiff;
        if baudDiff == 0 {
          break;
        }
      }
    }
  }

  /** The rate closest to the one asked for, and the divisor that makes it. Exactly for the
      rates above 2250000 and up to 2666666 a closer one is missed. */
  method ToClkbitsAM(baud: int) returns (bestBaud: int, encoded: nat, ghost d: int)
    requires 0 < baud
    ensures Supported(d) && bestBaud == Estimate(d) && DecodeDivisor(encoded) == d && encoded < 0x10000
    ensures Best(d, baud) <==> !(2250000 < baud <= 2666666)
  {
    hide Estimate, Diff, Try, Best, DecodeDivisor, EncodeDivisor;
    Quotient(baud);
    var q := AM_CLK / baud;
    var divisor := q - ADJUST_DN[q % 8];
    var bestDivisor;
    bestDivisor, bestBaud := SearchAM(divisor, baud);
    d := bestDivisor;
    AmChoice(d, q, baud);
    encoded := EncodeAM(bestDivisor);
  }

  lemma AmChoice(d: int, q: int, baud: int)
    requires 0 < baud && 0 <= q && baud * q <= AM_CLK < baud * (q + 1)
    requires 0 < d && BestOfTwo(d, q - ADJUST_DN[q % 8], baud)
    ensures Supported(d) && (Best(d, baud) <==> !(2250000 < baud <= 2666666))
  {
    if q < 16 {
      SmallDivisors(d, q, baud);
    } else {
      TwoTriesSuffice(d, q, baud);
      MulMono(16, q, baud);
      Neighbours(q, 16);
    }
  }

  /** The two shortest codes stand for 8 and 12; the search above never asks for 12. */
  method EncodeAM(bestDivisor: nat) returns (encoded: nat)
    requires Supported(bestDivisor) || bestDivisor == 12
    ensures DecodeDivisor(encoded) == bestDivisor && encoded < 0x10000
  {
    if bestDivisor >= 16 {
      EncodeDecode(bestDivisor);
    }
    encoded := bestDivisor / 8 + 0x4000 * FRAC_CODE[bestDivisor % 8];
    if encoded == 1 {
      encoded := 0;
    } else if encoded == 0x4001 {
      encoded := 1;
    }
  }

  // ---------- the later chips ----------

  /** The divisor for a rate below half the base clock: `twoX` is twice the base clock in
      eighths, and the quotient is rounded to the nearest eighth. */
  function Nearest(twoX: nat, baud: int): (d: nat)
    requires 0 < baud
  {
    var q := twoX / baud;
    if q % 2 == 1 then q / 2 + 1 else q / 2
  }

  /** The divisor is within half a step of the exact one. */
  lemma NearestBound(twoX: nat, baud: int)
    requires 0 < baud
    ensures var d := Nearest(twoX, baud);
            -baud <= 2 * (d * baud) - twoX <= baud
  {
    var q, d := twoX / baud, Nearest(twoX, baud);
    assert q * baud <= twoX < q * baud + baud;
    assert 2 * d == q || 2 * d == q + 1;
    assert 2 * (d * baud) == (2 * d) * baud;
    assert (q + 1) * baud == q * baud + baud;
  }

  /** The largest divisor that the chips accept, and what the code makes of larger ones. */
  function Clamp(d: nat): (c: nat)
  {
    if d > 0x20000 then 0x1FFFF else d
  }

  /** With the clocks of these chips no rate asks for the one divisor that would spill over its
      14 bits. */
  lemma NoOverflow(twoX: nat, baud: int)
    requires 0 < baud && (twoX == 48000000 || twoX == 192000000)
    ensures Nearest(twoX, baud) != 0x20000 && Clamp(Nearest(twoX, baud)) < 0x20000
  {
    var q := twoX / baud;
    assert q * baud <= twoX < q * baud + baud;
    if q == 262143 {
    } else if q == 262144 {
    }
  }

  /** The fractional divisor, its rate and its encoding. */
  method Fractional(baud: int, twoX: nat) returns (bestBaud: int, encoded: nat)
    requires 0 < baud && (twoX == 48000000 || twoX == 192000000) && 32 * baud < twoX
    ensures var d := Clamp(Nearest(twoX, baud));
            16 <= d && DecodeDivisor(encoded) == d && bestBaud == Nearest(twoX, d) && encoded < 0x20000
  {
    hide DecodeDivisor;
    NoOverflow(twoX, baud);
    var divisor := twoX / baud;
    QuotientAtLeast(twoX, baud, 32);
    var bestDivisor := if divisor % 2 == 1 then divisor / 2 + 1 else divisor / 2;
    if bestDivisor > 0x20000 {
      bestDivisor := 0x1FFFF;
    }
    bestBaud := twoX / bestDivisor;
    bestBaud := if bestBaud % 2 == 1 then bestBaud / 2 + 1 else bestBaud / 2;
    EncodeDecode(bestDivisor);
    encoded := bestDivisor / 8 + 0x4000 * FRAC_CODE[bestDivisor % 8];
  }

  lemma ShortestCodes()
    ensures DecodeDivisor(0) == 8 && DecodeDivisor(1) == 12 && DecodeDivisor(2) == 16
  {
  }

  method ToClkbits(baud: int, clk: nat, clkDiv: nat) returns (bestBaud: int, encoded: nat)
    requires 0 < baud && ((clk == H_CLK && clkDiv == 10) || (clk == C_CLK && clkDiv == 16))
    ensures Rate(baud, clk / clkDiv, bestBaud, encoded) && encoded < 0x20000
  {
    hide Nearest, Clamp, DecodeDivisor;
    ShortestCodes();
    bestBaud, encoded := 0, 0;
    if baud >= clk / clkDiv {
      encoded := 0;
      bestBaud := clk / clkDiv;
    } else if baud >= clk / (clkDiv + clkDiv / 2) {
      encoded := 1;
      bestBaud := clk / (clkDiv + clkDiv / 2);
    } else if baud >= clk / (2 * clkDiv) {
      encoded := 2;
      bestBaud := clk / (2 * clkDiv);
    } else {
      bestBaud, encoded := Fractional(baud, clk * 16 / clkDiv);
    }
  }

  /** What the search returns for a base clock of `base` Hz. */
  ghost predicate Rate(baud: int, base: nat, bestBaud: int, encoded: nat)
    requires 0 < baud
  {
    var d := DecodeDivisor(encoded);
    if baud >= base then d == 8 && bestBaud == base
    else if 3 * baud >= 2 * base then d == 12 && 3 * bestBaud == 2 * base
    else if 2 * baud >= base then d == 16 && 2 * bestBaud == base
    else 16 <= d == Clamp(Nearest(16 * base, baud)) && bestBaud == Nearest(16 * base, d)
  }

  // ---------- setting a rate ----------

  datatype ChipType = AM | BM | C2232 | R232 | H2232 | H4232 | H232 | X230

  predicate IsH(chip: ChipType) {
    chip == H2232 || chip == H4232 || chip == H232
  }

  /** The base clock that a chip uses for a rate. */
  function BaseClock(chip: ChipType, baud: int): (base: nat)
  {
    if IsH(chip) && 733 <= baud then 12000000 else 3000000
  }

  /** What the device finds in the two registers: the divisor, and whether it divides 12 MHz. */
  function DecodeRegisters(chip: ChipType, value: nat, index: nat): (r: (nat, bool))
  {
    var encoded := value + 0x10000 * (if IsH(chip) then index / 0x100 else index);
    (DecodeDivisor(encoded), encoded / 0x20000 == 1)
  }

  /** The nearest rate, and the registers that select it; -1 for a rate that is not positive.
      `iface` is the interface number that shares a register on the H chips. */
  method ConvertBaudrate(chip: ChipType, iface: nat, baud: int)
    returns (bestBaud: int, value: nat, index: nat, ghost encoded: nat)
    requires iface < 0x100
    ensures baud <= 0 ==> bestBaud == -1
    ensures 0 < baud ==> value < 0x10000 && index < 0x10000 && (IsH(chip) ==> index % 0x100 == iface)
    ensures 0 < baud ==> DecodeRegisters(chip, value, index) == (DecodeDivisor(encoded), BaseClock(chip, baud) == 12000000)
    ensures 0 < baud && chip != AM ==> Rate(baud, BaseClock(chip, baud), bestBaud, encoded)
    ensures 0 < baud && chip == AM ==>
              var d := DecodeDivisor(encoded);
              Supported(d) && bestBaud == Estimate(d) && (Best(d, baud) <==> !(2250000 < baud <= 2666666))
  {
    hide DecodeDivisor, Rate, Estimate, Best, Supported;
    value, index, encoded := 0, 0, 0;
    if baud <= 0 {
      return -1, 0, 0, 0;
    }
    var enc: nat;
    if chip != AM {
      bestBaud, enc, encoded := ConvertLater(chip, baud);
    } else {
      ghost var d;
      bestBaud, enc, d := ToClkbitsAM(baud);
      encoded := enc;
    }
    value, index := SplitRegisters(chip, iface, enc);
    DecodeMod(enc, encoded);
  }

  /** The H chips have a second, faster base clock, which bit 17 selects. */
  method ConvertLater(chip: ChipType, baud: int) returns (bestBaud: int, enc: nat, ghost encoded: nat)
    requires 0 < baud && chip != AM
    ensures Rate(baud, BaseClock(chip, baud), bestBaud, encoded) && encoded < 0x20000
    ensures enc == if BaseClock(chip, baud) == 12000000 then encoded + 0x20000 else encoded
  {
    hide Rate;
    if IsH(chip) {
      if baud * 10 > H_CLK / 0x3FFF {
        bestBaud, enc := ToClkbits(baud, H_CLK, 10);
        encoded := enc;
        enc := enc + 0x20000;
      } else {
        bestBaud, enc := ToClkbits(baud, C_CLK, 16);
        encoded := enc;
      }
    } else {
      bestBaud, enc := ToClkbits(baud, C_CLK, 16);
      encoded := enc;
    }
  }

  method SplitRegisters(chip: ChipType, iface: nat, encoded: nat) returns (value: nat, index: nat)
    requires iface < 0x100 && encoded < 0x40000
    ensures value < 0x10000 && index < 0x10000 && (IsH(chip) ==> index % 0x100 == iface)
    ensures encoded == value + 0x10000 * (if IsH(chip) then index / 0x100 else index)
  {
    value := encoded % 0x10000;
    if IsH(chip) {
      index := encoded / 0x100;
      index := index - index % 0x100;
      assert index == 0x100 * (encoded / 0x10000);
      index := index + iface;
    } else {
      index := encoded / 0x10000;
    }
  }

  lemma DecodeMod(a: nat, b: nat)
    requires a % 0x20000 == b % 0x20000
    ensures DecodeDivisor(a) == DecodeDivisor(b)
  {
  }

  /** The check that rejects a rate more than about 5% off. */
  predicate Tolerable(actual: int, baud: int)
  {
    && actual * 2 >= baud
    && if actual < baud then actual * 21 >= baud * 20 else baud * 21 >= actual * 20
  }

  /** The rates that a chip with the base clock `base` accepts when its divisor does not run out
      of bits. */
  predicate InBands(baud: int, base: nat)
  {
    || 40 * baud <= 21 * base
    || (3 * baud >= 2 * base && 60 * baud <= 42 * base)
    || (baud >= base && 20 * baud <= 21 * base)
  }

  lemma Deviation(delta: int, d: int, baud: int)
    requires 31 <= baud && 16 <= d && 2 * (delta * d) <= d + baud
    ensures 21 * delta <= baud
  {
    if delta >= 1 {
      assert delta * d - 16 * delta == (delta - 1) * (d - 16) + (d - 16);
      MulMono(0, delta - 1, d - 16);
    }
  }

  /** Rounding the divisor to eighths costs at most a part in 32, and rounding the rate half a
      baud, which is well within the tolerance. */
  lemma FractionalTolerable(baud: int, twoX: nat, d: int, best: int)
    requires 31 <= baud && 16 <= d == Nearest(twoX, baud) && best == Nearest(twoX, d)
    ensures Tolerable(best, baud)
  {
    NearestBound(twoX, baud);
    NearestBound(twoX, d);
    hide Nearest;
    assert (best - baud) * d == best * d - d * baud;
    assert (baud - best) * d == d * baud - best * d;
    Deviation(best - baud, d, baud);
    Deviation(baud - best, d, baud);
  }

  /** Which rates pass the check, for a chip that divides `base`. */
  lemma BandsTolerable(baud: int, base: nat, best: int, encoded: nat)
    requires 31 <= baud && (base == 3000000 || base == 12000000)
    requires Rate(baud, base, best, encoded) && Nearest(16 * base, baud) <= 0x20000
    ensures Tolerable(best, baud) <==> InBands(baud, base)
  {
    if 2 * baud < base {
      FractionalTolerable(baud, 16 * base, DecodeDivisor(encoded), best);
    }
  }

  /** The slowest rates, where the divisor runs out of bits. */
  lemma SlowTolerable(baud: int, best: int, encoded: nat)
    requires 0 < baud <= 183 && Rate(baud, 3000000, best, encoded)
    ensures best == 183 && (Tolerable(best, baud) <==> 175 <= baud)
  {
    QuotientAtLeast(48000000, baud, 262145);
    assert Nearest(48000000, 0x1FFFF) == 183;
  }

  lemma FastEnough(baud: int, base: nat)
    requires (base == 3000000 && 184 <= baud) || (base == 12000000 && 733 <= baud)
    ensures Nearest(16 * base, baud) <= 0x20000
  {
    MulMono(if base == 3000000 then 184 else 733, baud, 262143);
    QuotientAtMost(16 * base, baud, 262142);
  }

  /** The exact set of rates that the chips with fractional divisors accept. */
  predicate Accepted(chip: ChipType, baud: int)
    requires chip != AM
  {
    if IsH(chip) then 175 <= baud <= 6300000 || 8000000 <= baud <= 8400000 || 12000000 <= baud <= 12600000
    else 175 <= baud <= 1575000 || 2000000 <= baud <= 2100000 || 3000000 <= baud <= 3150000
  }

  lemma AcceptedExactly(chip: ChipType, baud: int, best: int, encoded: nat)
    requires chip != AM && 0 < baud && Rate(baud, BaseClock(chip, baud), best, encoded)
    ensures 0 < best && (Tolerable(best, baud) <==> Accepted(chip, baud))
  {
    if baud <= 183 {
      SlowTolerable(baud, best, encoded);
    } else {
      FastEnough(baud, BaseClock(chip, baud));
      BandsTolerable(baud, BaseClock(chip, baud), best, encoded);
    }
  }

  // ---------- the rates that the AM chip accepts ----------

  /** No supported divisor lies between the two. */
  ghost predicate Adjacent(s: int, t: int)
  {
    Supported(s) && Supported(t) && forall d :: Supported(d) ==> d <= s || t <= d
  }

  /** A divisor within a part in 21 of the rate makes the best one tolerable. */
  lemma Near(d: int, s: int, baud: int)
    requires 0 < baud && Best(d, baud) && Supported(s) && 21 * Diff(s, baud) <= baud
    ensures Tolerable(Estimate(d), baud)
  {
    hide Estimate;
  }

  lemma Between(d: int, s: int, t: int, baud: int)
    requires 0 < baud && Best(d, baud) && Supported(s) && Supported(t)
    requires Estimate(t) <= baud <= Estimate(s) && 21 * (Estimate(s) - Estimate(t)) <= 2 * Estimate(t)
    ensures Tolerable(Estimate(d), baud)
  {
    hide Estimate, Best, Tolerable;
    Near(d, if baud - Estimate(t) <= Estimate(s) - baud then t else s, baud);
  }

  /** Below the rate of a divisor a part in 20 is tolerated, when the next rate is further away. */
  lemma JustBelow(d: int, s: int, t: int, baud: int)
    requires 0 < baud && Best(d, baud) && Adjacent(s, t)
    requires 20 * Estimate(s) <= 21 * baud && 0 <= Estimate(s) - baud < baud - Estimate(t)
    ensures Tolerable(Estimate(d), baud)
  {
    hide Estimate;
    if d <= s {
      EstimateMonotone(d, s);
    } else {
      EstimateMonotone(t, d);
    }
  }

  lemma Gap(d: int, s: int, t: int, baud: int)
    requires Supported(d) && Adjacent(s, t) && 21 * Estimate(t) < 20 * baud && 21 * baud < 20 * Estimate(s)
    ensures !Tolerable(Estimate(d), baud)
  {
    hide Estimate;
    if d <= s {
      EstimateMonotone(d, s);
    } else {
      EstimateMonotone(t, d);
    }
  }

  /** From 40 eighths on the rates of neighbours differ by less than 2 parts in 21. */
  lemma NeighboursNear(s: int, t: int)
    requires 40 <= s < t <= s + 4 && t <= 0x1FFF8 && (s < 44 ==> t <= s + 2)
    ensures 21 * (Estimate(s) - Estimate(t)) <= 2 * Estimate(t)
  {
    var e, f := Estimate(s), Estimate(t);
    EstimateMonotone(s, t);
    EstimateMonotone(t, 0x1FFF8);
    assert Estimate(0x1FFF8) == 183;
    assert e * s <= AM_CLK + s / 2;
    assert AM_CLK + t / 2 < f * t + t;
    if s == 44 {
      EstimateMonotone(t, 48);
    }
    hide Estimate;
    RatesNear(e, f, s, t - s, if s < 44 then 2 else 4);
  }

  lemma RatesNear(e: int, f: int, s: int, k: int, most: int)
    requires 183 <= f <= e && 40 <= s && 1 <= k <= most == (if s < 44 then 2 else 4) && (s == 44 ==> 500000 <= f)
    requires e * s <= AM_CLK + s / 2 && AM_CLK + (s + k) / 2 < f * (s + k) + (s + k)
    ensures 21 * (e - f) <= 2 * f
  {
    StepsNear(e, f, s, k, most);
    RateDominates(f, s, most);
    Distribute(f, e - f, s, most);
    NotNegative(2 * f - 21 * (e - f), s);
  }

  lemma Distribute(f: int, n: int, s: int, most: int)
    ensures (2 * f - 21 * n) * s == 2 * (f * s) - 21 * (n * s)
    ensures f * (2 * s - 21 * most) == 2 * (f * s) - 21 * (f * most)
  {
  }

  lemma StepsNear(e: int, f: int, s: int, k: int, most: int)
    requires 0 <= f && 1 <= k <= most <= 4 && 40 <= s
    requires e * s <= AM_CLK + s / 2 && AM_CLK + (s + k) / 2 < f * (s + k) + (s + k)
    ensures (e - f) * s < f * most + s + most
  {
    assert (e - f) * s == e * s - f * s && f * (s + k) == f * s + f * k;
    MulMono(k, most, f);
  }

  lemma RateDominates(f: int, s: int, most: int)
    requires 183 <= f && 40 <= s && most == (if s < 44 then 2 else 4) && (s == 44 ==> 500000 <= f)
    ensures 20 * s + 21 * most <= f * (2 * s - 21 * most)
  {
    MulMono(if s == 44 then 500000 else 183, f, 2 * s - 21 * most);
  }

  lemma NotNegative(x: int, s: int)
    requires 0 < s && -s < x * s
    ensures 0 <= x
  {
    if x < 0 {
      MulMono(x, -1, s);
    }
  }

  /** The slower rates, where the divisors are dense. */
  lemma DenseTolerable(d: int, baud: int)
    requires 184 <= baud <= 600000 && Best(d, baud)
    ensures Tolerable(Estimate(d), baud)
  {
    hide Estimate, Diff, Best, Tolerable;
    Quotient(baud);
    var q := AM_CLK / baud;
    DenseQuotient(baud);
    var s := Down(q);
    var t := Up(s);
    DownIsLargest(q, if t <= q then t else s);
    RatesAround(s, t, q, baud);
    NeighboursNear(s, t);
    Between(d, s, t, baud);
  }

  lemma DenseQuotient(baud: int)
    requires 184 <= baud <= 600000
    ensures 40 <= AM_CLK / baud <= 130435
  {
    QuotientAtLeast(AM_CLK, baud, 40);
    QuotientAtMost(AM_CLK, baud, 130435);
  }

  lemma RatesAround(s: int, t: int, q: int, baud: int)
    requires 0 < baud && 0 < s <= q < t && baud * q <= AM_CLK < baud * (q + 1)
    ensures Estimate(t) <= baud <= Estimate(s)
  {
    hide Estimate;
    MulMono(s, q, baud);
    MulMono(q + 1, t, baud);
    EstimateAbove(s, baud);
    EstimateBelow(t, baud);
  }

  lemma Estimates()
    ensures Estimate(8) == 3000000 && Estimate(16) == 1500000 && Estimate(17) == 1411765 && Estimate(18) == 1333333
    ensures Estimate(20) == 1200000 && Estimate(24) == 1000000 && Estimate(25) == 960000 && Estimate(26) == 923077
    ensures Estimate(28) == 857143 && Estimate(32) == 750000 && Estimate(33) == 727273 && Estimate(34) == 705882
    ensures Estimate(36) == 666667 && Estimate(40) == 600000 && Estimate(0x1FFF8) == 183
  {
  }

  /** The exact set of rates that the AM chip accepts. */
  predicate AcceptedAM(baud: int)
  {
    || 175 <= baud <= 630000 || 634921 <= baud <= 787500 || 816327 <= baud <= 1050000
    || 1142858 <= baud <= 1260000 || 1269841 <= baud <= 1575000 || 2857143 <= baud <= 3150000
  }

  /** Above 600000 baud there are fifteen divisors left. */
  lemma SparseTolerable(d: int, baud: int)
    requires 600000 < baud && AcceptedAM(baud) && Best(d, baud)
    ensures Tolerable(Estimate(d), baud)
  {
    Estimates();
    hide Estimate, Best, Tolerable;
    if baud <= 630000 { Near(d, 40, baud); }
    else if baud < 666667 { JustBelow(d, 36, 40, baud); }
    else if baud <= 705882 { Between(d, 34, 36, baud); }
    else if baud <= 727273 { Between(d, 33, 34, baud); }
    else if baud <= 750000 { Between(d, 32, 33, baud); }
    else if baud <= 787500 { Near(d, 32, baud); }
    else if baud < 857143 { JustBelow(d, 28, 32, baud); }
    else if baud <= 923077 { Between(d, 26, 28, baud); }
    else if baud <= 960000 { Between(d, 25, 26, baud); }
    else if baud <= 1000000 { Between(d, 24, 25, baud); }
    else if baud <= 1050000 { Near(d, 24, baud); }
    else if baud < 1200000 { JustBelow(d, 20, 24, baud); }
    else if baud <= 1260000 { Near(d, 20, baud); }
    else if baud < 1333333 { JustBelow(d, 18, 20, baud); }
    else if baud <= 1411765 { Between(d, 17, 18, baud); }
    else if baud <= 1500000 { Between(d, 16, 17, baud); }
    else if baud <= 1575000 { Near(d, 16, baud); }
    else if baud < 3000000 { JustBelow(d, 8, 16, baud); }
    else { Near(d, 8, baud); }
  }

  /** In the gaps no divisor is tolerable, the best one included. */
  lemma GapsRefused(d: int, baud: int)
    requires 0 < baud && Supported(d) && !AcceptedAM(baud)
    ensures !Tolerable(Estimate(d), baud)
  {
    Estimates();
    EstimateMonotone(8, d);
    EstimateMonotone(d, 0x1FFF8);
    hide Estimate;
    if 630000 < baud < 634921 { Gap(d, 36, 40, baud); }
    else if 787500 < baud < 816327 { Gap(d, 28, 32, baud); }
    else if 1050000 < baud < 1142858 { Gap(d, 20, 24, baud); }
    else if 1260000 < baud < 1269841 { Gap(d, 18, 20, baud); }
    else if 1575000 < baud < 2857143 { Gap(d, 8, 16, baud); }
  }

  /** The rates that pass the check on the AM chip. Those for which the search misses the best
      divisor lie in a gap. */
  lemma AmAcceptedExactly(d: int, baud: int)
    requires 0 < baud && Supported(d) && (Best(d, baud) <==> !(2250000 < baud <= 2666666))
    ensures Tolerable(Estimate(d), baud) <==> AcceptedAM(baud)
  {
    hide Best, Estimate, Supported, Tolerable;
    if !AcceptedAM(baud) {
      GapsRefused(d, baud);
    } else if 600000 < baud {
      SparseTolerable(d, baud);
    } else if 184 <= baud {
      DenseTolerable(d, baud);
    } else {
      SlowestTolerable(d, baud);
    }
  }

  lemma SlowestTolerable(d: int, baud: int)
    requires 175 <= baud <= 183 && Best(d, baud)
    ensures Tolerable(Estimate(d), baud)
  {
    Estimates();
    EstimateMonotone(d, 0x1FFF8);
    hide Estimate;
    assert Diff(d, baud) <= Diff(0x1FFF8, baud);
  }

  class Port {
    const chip: ChipType
    const iface: nat
    var bitbang: bool
    var baudrate: int

    /** Sets a rate, four times as high in bitbang mode. `usb` is what the control transfer to
        the device returns. */
    method SetBaudrate(rate: int, usb: int) returns (ret: int)
      requires iface < 0x100
      modifies this`baudrate
      ensures var baud := if bitbang then rate * 4 else rate;
              && (baud <= 0 ==> ret == -1)
              && (0 < baud ==> (ret == -1 <==> !if chip == AM then AcceptedAM(baud) else Accepted(chip, baud)))
              && (ret == -1 || (ret == if usb < 0 then -2 else 0))
              && baudrate == if ret == 0 then baud else old(baudrate)
    {
      var baud := if bitbang then rate * 4 else rate;
      var actual, value, index; ghost var encoded;
      actual, value, index, encoded := ConvertBaudrate(chip, iface, baud);
      if 0 < baud {
        if chip == AM {
          AmAcceptedExactly(DecodeDivisor(encoded), baud);
        } else {
          AcceptedExactly(chip, baud, actual, encoded);
        }
      }
      if actual <= 0 {
        return -1;
      }
      if actual * 2 < baud || (if actual < baud then actual * 21 < baud * 20 else baud * 21 < actual * 20) {
        return -1;
      }
      if usb < 0 {
        return -2;
      }
      baudrate := baud;
      ret := 0;
    }
  }
}
