/**
 The image of a configuration EEPROM: header bytes whose meaning depends on the chip, three strings
 further up, and a checksum in the last two bytes. For the FT232BM, FT2232C, FT2232H, FT4232H and
 FT232H, without user data.
 */
module EepromImage {

  datatype Kind = BM | C2232 | H2232 | H4232 | H232

  datatype Group = Group(drive: nat, schmitt: bool, slew: bool)

  /** What is configured. Flags are booleans here, and the other numbers are not negative, except
      for the chip, where -1 means that none is known. */
  datatype Config = Config(
    vendorId: nat, productId: nat, releaseNumber: nat, selfPowered: bool, remoteWakeup: bool, isNotPnp: nat,
    suspendDbus7: bool, inIsochronous: bool, outIsochronous: bool, suspendPullDowns: bool, useSerial: bool,
    usbVersion: nat, useUsbVersion: bool, maxPower: nat,
    manufacturer: seq<bv8>, product: seq<bv8>, serial: seq<bv8>,
    channelAType: nat, channelBType: nat,
    channelADriver: bool, channelBDriver: bool, channelCDriver: bool, channelDDriver: bool,
    rs485A: bool, rs485B: bool, rs485C: bool, rs485D: bool,
    cbus0: nat, cbus1: nat, cbus2: nat, cbus3: nat, cbus4: nat, cbus5: nat, cbus6: nat, cbus7: nat, cbus8: nat, cbus9: nat,
    highCurrentA: bool, highCurrentB: bool,
    group0: Group, group1: Group, group2: Group, group3: Group,
    powerSave: bool, clockPolarity: bool, dataOrder: bool, flowControl: bool, chip: int)

  // ---------- bytes and bits ----------

  function Low(x: int): (b: bv8)
  {
    (x % 256) as bv8
  }

  function High(x: nat): (b: bv8)
  {
    Low(x / 256)
  }

  function Number(low: bv8, high: bv8): (x: nat)
  {
    low as nat + 256 * (high as nat)
  }

  lemma LowIsRemainder(x: int)
    ensures Low(x) as nat == x % 256
  {
    ByteValue(x % 256);
  }

  lemma ByteValue(y: nat)
    requires y < 256
    ensures (y as bv8) as nat == y
  {
    TwoDigits(y / 16, y % 16);
    assert y == 16 * (y / 16) + y % 16;
  }

  lemma TwoDigits(q: nat, r: nat)
    requires q < 16 && r < 16
    ensures ((16 * q + r) as bv8) as nat == 16 * q + r
  {
  }

  lemma NumberRoundTrip(x: nat)
    ensures Number(Low(x), High(x)) == x % 0x10000
  {
    hide Low;
    LowIsRemainder(x);
    LowIsRemainder(x / 256);
    TwoBytes(x);
  }

  lemma TwoBytes(x: nat)
    ensures x % 256 + 256 * (x / 256 % 256) == x % 0x10000
  {
    var q, y := x / 0x10000, x % 0x10000;
    var a, b := y / 256, y % 256;
    Quotient(x, 256 * q + a, b);
    Quotient(256 * q + a, q, a);
  }

  lemma Quotient(x: nat, q: nat, r: nat)
    requires x == 256 * q + r && r < 256
    ensures x / 256 == q && x % 256 == r
  {
  }

  /** A bit that is set or cleared by a flag. */
  function With(b: bv8, mask: bv8, on: bool): (r: bv8)
  {
    if on then b | mask else b & !mask
  }

  function Has(b: bv8, mask: bv8): (on: bool)
  {
    b & mask != 0
  }

  lemma WithSets(b: bv8, mask: bv8, on: bool)
    requires mask != 0
    ensures Has(With(b, mask, on), mask) == on
  {
  }

  lemma WithKeeps(b: bv8, mask: bv8, on: bool, other: bv8)
    requires mask & other == 0
    ensures With(b, mask, on) & other == b & other
  {
  }

  lemma WithHas(b: bv8, mask: bv8, on: bool, other: bv8)
    requires mask & other == 0
    ensures Has(With(b, mask, on), other) == Has(b, other)
  {
    hide With;
    WithKeeps(b, mask, on, other);
  }

  // ---------- the fields of the header ----------

  /** The types that a channel of the chip can have; any other is written as 0. */
  function TypeBits(kind: Kind, channelType: nat): (b: bv8)
  {
    var t := channelType % 256;
    if t == 1 || t == 2 || t == 4 || (kind == H232 && t == 8) then t as bv8 else 0
  }

  /** Section by section, the value of a channel type that a decoder understands. */
  function BitsType(bits: bv8): (t: nat)
  {
    if bits == 1 || bits == 2 || bits == 4 || bits == 8 then bits as nat else 0
  }

  function Drive(drive: nat): (b: bv8)
  {
    if drive > 3 then 3 else drive as bv8
  }

  function GroupBits(g: Group): (b: bv8)
  {
    With(With(Drive(g.drive), 8, g.schmitt), 4, g.slew)
  }

  function GroupOf(b: bv8): (g: Group)
  {
    Group((b & 3) as nat, Has(b, 8), Has(b, 4))
  }

  function Pair(low: bv8, high: bv8): (b: bv8)
  {
    (high << 4) | low
  }

  function LowHalf(b: bv8): (r: bv8)
  {
    b & 0x0F
  }

  function HighHalf(b: bv8): (r: bv8)
  {
    (b >> 4) & 0x0F
  }

  function Cbus(f: nat): (b: bv8)
  {
    if f > 12 then 0 else f as bv8
  }

  lemma Halves(low: bv8, high: bv8)
    requires low < 16 && high < 16
    ensures LowHalf(Pair(low, high)) == low && HighHalf(Pair(low, high)) == high
  {
  }

  lemma GroupBitsSmall(g: Group)
    ensures GroupBits(g) < 16
  {
  }

  lemma GroupRoundTrip(g: Group)
    ensures GroupOf(GroupBits(g)) == g.(drive := if g.drive > 3 then 3 else g.drive)
  {
  }

  lemma TypeRoundTrip(kind: Kind, t: nat)
    ensures BitsType(TypeBits(kind, t)) == if t % 256 in {1, 2, 4} || (kind == H232 && t % 256 == 8) then t % 256 else 0
    ensures TypeBits(kind, t) < 16 && (kind != H232 ==> TypeBits(kind, t) < 8)
  {
  }

  function Byte00(kind: Kind, c: Config): (b: bv8)
  {
    match kind
    case BM => 0
    case C2232 => With(With(TypeBits(kind, c.channelAType), 0x08, c.channelADriver), 0x10, c.highCurrentA)
    case H2232 => With(TypeBits(kind, c.channelAType), 0x08, c.channelADriver)
    case H4232 => With(With(0, 0x08, c.channelADriver), 0x80, c.channelCDriver)
    case H232 => With(TypeBits(kind, c.channelAType), 0x10, c.channelADriver)
  }

  function Byte01(kind: Kind, c: Config): (b: bv8)
  {
    match kind
    case BM => 0
    case C2232 => With(With(TypeBits(kind, c.channelBType), 0x08, c.channelBDriver), 0x10, c.highCurrentB)
    case H2232 => With(With(TypeBits(kind, c.channelBType), 0x08, c.channelBDriver), 0x80, c.suspendDbus7)
    case H4232 => With(With(0, 0x08, c.channelBDriver), 0x80, c.channelDDriver)
    case H232 => With(With(With(With(0, 0x80, c.powerSave), 0x01, c.clockPolarity), 0x02, c.dataOrder), 0x04, c.flowControl)
  }

  function Byte08(c: Config): (b: bv8)
  {
    With(With(0x80, 0x40, c.selfPowered), 0x20, c.remoteWakeup)
  }

  function Byte0A(kind: Kind, c: Config): (b: bv8)
  {
    var all := With(With(With(0, 0x01, c.inIsochronous), 0x02, c.outIsochronous), 0x08, c.useSerial);
    match kind
    case BM => With(all, 0x10, c.useUsbVersion)
    case C2232 => With(With(all, 0x04, c.suspendPullDowns), 0x10, c.useUsbVersion)
    case _ => With(all, 0x04, c.suspendPullDowns)
  }

  function Byte0B(kind: Kind, c: Config): (b: bv8)
  {
    if kind == H4232 then With(With(With(With(0, 0x10, c.rs485A), 0x20, c.rs485B), 0x40, c.rs485C), 0x80, c.rs485D) else 0
  }

  function Byte0C(kind: Kind, c: Config): (b: bv8)
  {
    match kind
    case BM => Low(c.usbVersion)
    case C2232 => Low(c.usbVersion)
    case H232 => GroupBits(c.group0)
    case _ => Pair(GroupBits(c.group0), GroupBits(c.group1))
  }

  function Byte0D(kind: Kind, c: Config): (b: bv8)
  {
    match kind
    case BM => High(c.usbVersion)
    case C2232 => High(c.usbVersion)
    case H232 => GroupBits(c.group1)
    case _ => Pair(GroupBits(c.group2), GroupBits(c.group3))
  }

  // ---------- the strings ----------

  /** The length of a string is kept in a byte: of a longer one only the beginning counts. */
  function Kept(s: seq<bv8>): (r: seq<bv8>)
    ensures |r| == |s| % 256
  {
    s[..|s| % 256]
  }

  /** Two bytes a character, the second zero. */
  function Wide(s: seq<bv8>): (r: seq<bv8>)
    ensures |r| == 2 * |s|
  {
    seq(2 * |s|, k requires 0 <= k < 2 * |s| => if k % 2 == 0 then s[k / 2] else 0)
  }

  /** A string as it is stored: its length in bytes, its descriptor type and its characters. */
  function Entry(s: seq<bv8>): (r: seq<bv8>)
    ensures |r| == 2 * |s| + 2
  {
    [Low(2 * |s| + 2), 3] + Wide(s)
  }

  function Limit(kind: Kind): (room: int)
  {
    match kind
    case BM => 96
    case C2232 => 90
    case H232 => 80
    case _ => 86
  }

  /** The room that the strings leave, negative when they do not fit. */
  function Room(kind: Kind, c: Config): (room: int)
  {
    Limit(kind) - (|Kept(c.manufacturer)| + |Kept(c.product)| + |Kept(c.serial)|) * 2
  }

  function Tail(kind: Kind, c: Config): (t: seq<bv8>)
  {
    if kind == BM then [] else [2, 3, Low(c.isNotPnp)]
  }

  function Area(kind: Kind, c: Config): (a: seq<bv8>)
  {
    Entry(Kept(c.manufacturer)) + Entry(Kept(c.product)) + Entry(Kept(c.serial)) + Tail(kind, c)
  }

  /** Where the strings start, in a part of 256 bytes. */
  function Start(kind: Kind): (i: nat)
    ensures 0x94 <= i <= 0xA0
  {
    match kind
    case BM => 0x94
    case C2232 => 0x96
    case H232 => 0xA0
    case _ => 0x9A
  }

  /** Smaller parts wrap around. */
  function Wrap(i: nat, size: nat): (k: nat)
    requires size in {128, 256}
    ensures k < size
  {
    i % 256 % size
  }

  function First(kind: Kind, size: nat): (k: nat)
    requires size in {128, 256}
  {
    Wrap(Start(kind), size)
  }

  function ProductAt(kind: Kind, c: Config): (i: nat)
  {
    Start(kind) + |Entry(Kept(c.manufacturer))|
  }

  function SerialAt(kind: Kind, c: Config): (i: nat)
  {
    ProductAt(kind, c) + |Entry(Kept(c.product))|
  }

  lemma AreaLength(kind: Kind, c: Config)
    ensures |Area(kind, c)| == Limit(kind) - Room(kind, c) + 6 + |Tail(kind, c)|
  {
    hide Kept, Wide;
  }

  lemma FirstIs(kind: Kind, size: nat)
    requires size in {128, 256}
    ensures First(kind, size) == if size == 128 then Start(kind) - 128 else Start(kind)
  {
  }

  /** The strings that fit stay above the header and below the checksum, and do not wrap. */
  lemma AreaFits(kind: Kind, c: Config, size: nat)
    requires size in {128, 256} && Room(kind, c) >= 0
    ensures First(kind, size) >= 0x14 && (kind != BM ==> First(kind, size) >= 0x16)
    ensures (kind in {H2232, H4232} ==> First(kind, size) >= 0x1A) && (kind == H232 ==> First(kind, size) >= 0x20)
    ensures First(kind, size) + |Area(kind, c)| <= size - 6 && Start(kind) + |Area(kind, c)| <= 250
  {
    hide Area, Room, First;
    AreaLength(kind, c);
    FirstIs(kind, size);
  }

  lemma WrapAt(kind: Kind, size: nat, i: nat)
    requires size in {128, 256} && Start(kind) <= i < 256
    ensures Wrap(i, size) == First(kind, size) + (i - Start(kind))
  {
  }

  // ---------- the image ----------

  function HeaderByte(kind: Kind, c: Config, k: nat): (b: bv8)
  {
    match k
    case 0x00 => Byte00(kind, c)
    case 0x01 => Byte01(kind, c)
    case 0x02 => Low(c.vendorId)
    case 0x03 => High(c.vendorId)
    case 0x04 => Low(c.productId)
    case 0x05 => High(c.productId)
    case 0x06 => Low(c.releaseNumber)
    case 0x07 => High(c.releaseNumber)
    case 0x08 => Byte08(c)
    case 0x09 => Low(c.maxPower / 2)
    case 0x0A => Byte0A(kind, c)
    case 0x0B => Byte0B(kind, c)
    case 0x0C => Byte0C(kind, c)
    case 0x0D => Byte0D(kind, c)
    case 0x0E => Low(Start(kind))
    case 0x0F => Low(2 * |Kept(c.manufacturer)| + 2)
    case 0x10 => Low(ProductAt(kind, c))
    case 0x11 => Low(2 * |Kept(c.product)| + 2)
    case 0x12 => Low(SerialAt(kind, c))
    case 0x13 => Low(2 * |Kept(c.serial)| + 2)
    case 0x14 => if kind == C2232 then Low(c.chip) else 0
    case 0x18 => if kind == H232 then Pair(Cbus(c.cbus0), Cbus(c.cbus1)) else if kind in {H2232, H4232} then Low(c.chip) else 0
    case 0x19 => if kind == H232 then Pair(Cbus(c.cbus2), Cbus(c.cbus3)) else 0
    case 0x1A => if kind == H232 then Pair(Cbus(c.cbus4), Cbus(c.cbus5)) else 0
    case 0x1B => if kind == H232 then Pair(Cbus(c.cbus6), Cbus(c.cbus7)) else 0
    case 0x1C => if kind == H232 then Pair(Cbus(c.cbus8), Cbus(c.cbus9)) else 0
    case 0x1E => if kind == H232 then Low(c.chip) else 0
    case _ => 0
  }

  function BodyByte(kind: Kind, c: Config, size: nat, k: nat): (b: bv8)
    requires size in {128, 256}
  {
    var first, area := First(kind, size), Area(kind, c);
    if k < first then HeaderByte(kind, c, k) else if k < first + |area| then area[k - first] else 0
  }

  /** Everything but the checksum. */
  function Body(kind: Kind, c: Config, size: nat): (image: seq<bv8>)
    requires size in {128, 256}
    ensures |image| == 256
  {
    seq(256, k requires 0 <= k < 256 => BodyByte(kind, c, size, k))
  }

  // ---------- the checksum ----------

  function WordAt(image: seq<bv8>, i: nat): (w: bv16)
    requires 2 * i + 1 < |image|
  {
    (image[2 * i] as bv16) + ((image[2 * i + 1] as bv16) << 8)
  }

  function Turned(w: bv16): (r: bv16)
  {
    (w << 1) | (w >> 15)
  }

  function Mixed(sum: bv16, w: bv16): (r: bv16)
  {
    Turned(w ^ sum)
  }

  /** The first n words, each mixed in and the sum turned by one bit. */
  function Checksum(image: seq<bv8>, n: nat): (sum: bv16)
    requires 2 * n <= |image|
  {
    if n == 0 then 0xAAAA else Mixed(Checksum(image, n - 1), WordAt(image, n - 1))
  }

  function LowOf(w: bv16): (b: bv8)
  {
    (w & 0xFF) as bv8
  }

  function HighOf(w: bv16): (b: bv8)
  {
    (w >> 8) as bv8
  }

  function Sealed(image: seq<bv8>, size: nat): (r: seq<bv8>)
    requires size in {128, 256} && |image| == 256
    ensures |r| == 256
  {
    var sum := Checksum(image, size / 2 - 1);
    image[size - 2 := LowOf(sum)][size - 1 := HighOf(sum)]
  }

  predicate Accepted(image: seq<bv8>, size: nat)
    requires size in {128, 256} && |image| == 256
  {
    Checksum(image, size / 2 - 1) == WordAt(image, size / 2 - 1)
  }

  lemma {:induction false} SameChecksum(a: seq<bv8>, b: seq<bv8>, n: nat)
    requires 2 * n <= |a| && 2 * n <= |b| && a[..2 * n] == b[..2 * n]
    ensures Checksum(a, n) == Checksum(b, n)
  {
    hide Mixed, WordAt;
    if n > 0 {
      Prefix(a, 2 * n - 2, 2 * n);
      Prefix(b, 2 * n - 2, 2 * n);
      SameChecksum(a, b, n - 1);
      SameWord(a, b, n);
    }
  }

  lemma Prefix(s: seq<bv8>, m: nat, n: nat)
    requires m <= n <= |s|
    ensures s[..m] == s[..n][..m]
  {
  }

  lemma SameWord(a: seq<bv8>, b: seq<bv8>, n: nat)
    requires 0 < n && 2 * n <= |a| && 2 * n <= |b| && a[..2 * n] == b[..2 * n]
    ensures WordAt(a, n - 1) == WordAt(b, n - 1)
  {
    assert a[2 * n - 2] == a[..2 * n][2 * n - 2] && b[2 * n - 2] == b[..2 * n][2 * n - 2];
    assert a[2 * n - 1] == a[..2 * n][2 * n - 1] && b[2 * n - 1] == b[..2 * n][2 * n - 1];
  }

  lemma WordBytes(w: bv16)
    ensures (LowOf(w) as bv16) + ((HighOf(w) as bv16) << 8) == w
  {
  }

  lemma SealedAccepted(image: seq<bv8>, size: nat)
    requires size in {128, 256} && |image| == 256
    ensures Accepted(Sealed(image, size), size)
  {
    hide Mixed, LowOf, HighOf;
    var r := Sealed(image, size);
    assert r[..size - 2] == image[..size - 2];
    SameChecksum(image, r, size / 2 - 1);
    WordBytes(Checksum(image, size / 2 - 1));
  }

  function Image(kind: Kind, c: Config, size: nat): (image: seq<bv8>)
    requires size in {128, 256}
    ensures |image| == 256
  {
    Sealed(Body(kind, c, size), size)
  }

  // ---------- every word counts ----------

  lemma TurnedInjective(v: bv16, w: bv16)
    requires Turned(v) == Turned(w)
    ensures v == w
  {
  }

  lemma MixedDiffers(s: bv16, t: bv16, v: bv16, w: bv16)
    ensures s == t && v != w ==> Mixed(s, v) != Mixed(t, w)
    ensures s != t && v == w ==> Mixed(s, v) != Mixed(t, w)
  {
    hide Turned;
    XorDiffers(v, w, s, t);
    if Turned(v ^ s) == Turned(w ^ t) {
      TurnedInjective(v ^ s, w ^ t);
    }
  }

  lemma XorDiffers(v: bv16, w: bv16, s: bv16, t: bv16)
    ensures s == t && v != w ==> v ^ s != w ^ t
    ensures s != t && v == w ==> v ^ s != w ^ t
  {
  }

  /** A change of one word changes the sum, however many words follow. */
  lemma {:induction false} WordCounts(a: seq<bv8>, b: seq<bv8>, n: nat, k: nat)
    requires k < n && 2 * n <= |a| == |b|
    requires forall i :: 0 <= i < n && i != k ==> WordAt(a, i) == WordAt(b, i)
    requires WordAt(a, k) != WordAt(b, k)
    ensures Checksum(a, n) != Checksum(b, n)
  {
    hide Mixed, WordAt;
    MixedDiffers(Checksum(a, n - 1), Checksum(b, n - 1), WordAt(a, n - 1), WordAt(b, n - 1));
    if k < n - 1 {
      WordCounts(a, b, n - 1, k);
    } else {
      SameWords(a, b, n - 1);
    }
  }

  lemma {:induction false} SameWords(a: seq<bv8>, b: seq<bv8>, n: nat)
    requires 2 * n <= |a| == |b| && forall i :: 0 <= i < n ==> WordAt(a, i) == WordAt(b, i)
    ensures Checksum(a, n) == Checksum(b, n)
  {
    hide Mixed, WordAt;
    if n > 0 {
      SameWords(a, b, n - 1);
    }
  }

  /** An accepted image with one word spoiled, a word of the body or the checksum itself, is not
      accepted. */
  lemma SpoiledIsRefused(image: seq<bv8>, spoiled: seq<bv8>, size: nat, k: nat)
    requires size in {128, 256} && |image| == |spoiled| == 256 && Accepted(image, size) && k < size / 2
    requires forall i :: 0 <= i < size / 2 && i != k ==> WordAt(image, i) == WordAt(spoiled, i)
    requires WordAt(image, k) != WordAt(spoiled, k)
    ensures !Accepted(spoiled, size)
  {
    hide Mixed, WordAt;
    if k == size / 2 - 1 {
      SameWords(image, spoiled, size / 2 - 1);
    } else {
      WordCounts(image, spoiled, size / 2 - 1, k);
    }
  }

  // ---------- reading an image ----------

  /** The characters of a string, from its offset. A length below two bytes means no string, which
      is the empty one here. */
  function Characters(image: seq<bv8>, size: nat, offset: bv8, length: bv8): (s: seq<bv8>)
    requires size in {128, 256} && |image| == 256 && StringInside(size, offset, length)
    ensures |s| == Count(length)
  {
    var i := Wrap(offset as nat, size);
    seq(Count(length), j requires 0 <= j < Count(length) => image[2 * j + i + 2])
  }

  function Count(length: bv8): (n: nat)
  {
    var half := (length as nat) / 2;
    if half > 0 then half - 1 else 0
  }

  predicate StringInside(size: nat, offset: bv8, length: bv8)
    requires size in {128, 256}
  {
    Wrap(offset as nat, size) + 2 * Count(length) + 1 < 256
  }

  /** The strings that the header points to lie inside the buffer. */
  predicate Readable(image: seq<bv8>, size: nat)
    requires size in {128, 256} && |image| == 256
  {
    && StringInside(size, image[0x0E], image[0x0F]) && StringInside(size, image[0x10], image[0x11])
    && StringInside(size, image[0x12], image[0x13])
  }

  /** The part that is the same for all chips, and that is read before the checksum. */
  function DecodedCommon(c: Config, image: seq<bv8>, size: nat): (d: Config)
    requires size in {128, 256} && |image| == 256 && Readable(image, size)
  {
    c.(vendorId := Number(image[0x02], image[0x03]), productId := Number(image[0x04], image[0x05]),
       releaseNumber := Number(image[0x06], image[0x07]),
       selfPowered := Has(image[0x08], 0x40), remoteWakeup := Has(image[0x08], 0x20), maxPower := 2 * (image[0x09] as nat),
       inIsochronous := Has(image[0x0A], 0x01), outIsochronous := Has(image[0x0A], 0x02),
       suspendPullDowns := Has(image[0x0A], 0x04), useSerial := Has(image[0x0A], 0x08), useUsbVersion := Has(image[0x0A], 0x10),
       usbVersion := Number(image[0x0C], image[0x0D]),
       manufacturer := Characters(image, size, image[0x0E], image[0x0F]),
       product := Characters(image, size, image[0x10], image[0x11]),
       serial := Characters(image, size, image[0x12], image[0x13]))
  }

  function Decoded(kind: Kind, c: Config, image: seq<bv8>, size: nat): (d: Config)
    requires size in {128, 256} && |image| == 256 && Readable(image, size)
  {
    var e := DecodedCommon(c, image, size).(channelAType := 0);
    match kind
    case BM => e.(chip := -1)
    case C2232 => Decoded2232C(e, image)
    case H2232 => Decoded2232H(WithGroups(e, image), image)
    case H4232 => Decoded4232H(WithGroups(e, image), image)
    case H232 => WithCbus(Decoded232H(e, image), image)
  }

  function Decoded2232C(e: Config, image: seq<bv8>): (d: Config)
    requires |image| == 256
  {
    e.(channelAType := BitsType(image[0x00] & 7), channelADriver := Has(image[0x00], 0x08), highCurrentA := Has(image[0x00], 0x10),
       channelBType := (image[0x01] & 7) as nat, channelBDriver := Has(image[0x01], 0x08),
       highCurrentB := Has(image[0x01], 0x10), chip := image[0x14] as int)
  }

  function Decoded2232H(e: Config, image: seq<bv8>): (d: Config)
    requires |image| == 256
  {
    e.(channelADriver := Has(image[0x00], 0x08), channelBDriver := Has(image[0x01], 0x08),
       channelAType := BitsType(image[0x00] & 7), channelBType := BitsType(image[0x01] & 7),
       suspendDbus7 := Has(image[0x01], 0x80), chip := image[0x18] as int)
  }

  function Decoded4232H(e: Config, image: seq<bv8>): (d: Config)
    requires |image| == 256
  {
    e.(channelADriver := Has(image[0x00], 0x08), channelBDriver := Has(image[0x01], 0x08),
       channelCDriver := Has(HighHalf(image[0x00]), 0x08), channelDDriver := Has(HighHalf(image[0x01]), 0x08),
       rs485A := Has(image[0x0B], 0x10), rs485B := Has(image[0x0B], 0x20), rs485C := Has(image[0x0B], 0x40),
       rs485D := Has(image[0x0B], 0x80), chip := image[0x18] as int)
  }

  function Decoded232H(e: Config, image: seq<bv8>): (d: Config)
    requires |image| == 256
  {
    e.(channelAType := (image[0x00] & 15) as nat, channelADriver := Has(image[0x00], 0x10),
       clockPolarity := Has(image[0x01], 0x01), dataOrder := Has(image[0x01], 0x02), flowControl := Has(image[0x01], 0x04),
       powerSave := Has(image[0x01], 0x80), group0 := GroupOf(image[0x0C]), group1 := GroupOf(image[0x0D]))
  }

  function WithCbus(e: Config, image: seq<bv8>): (d: Config)
    requires |image| == 256
  {
    e.(cbus0 := LowHalf(image[0x18]) as nat, cbus1 := HighHalf(image[0x18]) as nat,
       cbus2 := LowHalf(image[0x19]) as nat, cbus3 := HighHalf(image[0x19]) as nat,
       cbus4 := LowHalf(image[0x1A]) as nat, cbus5 := HighHalf(image[0x1A]) as nat,
       cbus6 := LowHalf(image[0x1B]) as nat, cbus7 := HighHalf(image[0x1B]) as nat,
       cbus8 := LowHalf(image[0x1C]) as nat, cbus9 := HighHalf(image[0x1C]) as nat, chip := image[0x1E] as int)
  }

  function WithGroups(c: Config, image: seq<bv8>): (d: Config)
    requires |image| == 256
  {
    c.(group0 := GroupOf(image[0x0C]), group1 := GroupOf(HighHalf(image[0x0C])),
       group2 := GroupOf(image[0x0D]), group3 := GroupOf(HighHalf(image[0x0D])))
  }
}
