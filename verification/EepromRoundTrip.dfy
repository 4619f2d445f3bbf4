/** What is built is decoded again. */
module EepromRoundTrip {
  import opened EepromImage

  // ---------- where things are in the image ----------

  lemma HeaderAt(kind: Kind, c: Config, size: nat, k: nat)
    requires size in {128, 256} && Room(kind, c) >= 0 && k < First(kind, size)
    ensures Image(kind, c, size)[k] == HeaderByte(kind, c, k)
  {
    hide HeaderByte, Area, First, Room, Checksum;
    AreaFits(kind, c, size);
  }

  lemma AreaAt(kind: Kind, c: Config, size: nat, j: nat)
    requires size in {128, 256} && Room(kind, c) >= 0 && j < |Area(kind, c)|
    ensures First(kind, size) + j < 256 && Image(kind, c, size)[First(kind, size) + j] == Area(kind, c)[j]
  {
    hide HeaderByte, Area, First, Room, Checksum;
    AreaFits(kind, c, size);
  }

  lemma EntryAt(before: seq<bv8>, s: seq<bv8>, after: seq<bv8>, j: nat)
    requires j < |s|
    ensures (before + Entry(s) + after)[|before| + 2 * j + 2] == s[j]
  {
    hide Low;
    assert Wide(s)[2 * j] == s[j];
    assert Entry(s)[2 * j + 2] == s[j];
  }

  lemma LowOfSmall(x: nat)
    requires x < 256
    ensures Low(x) as nat == x
  {
    hide Low;
    LowIsRemainder(x);
  }

  lemma CountBack(n: nat)
    requires n < 120
    ensures Count(Low(2 * n + 2)) == n
  {
    hide Low;
    LowOfSmall(2 * n + 2);
    assert (2 * n + 2) / 2 == n + 1;
  }

  lemma OffsetBack(kind: Kind, size: nat, ahead: nat)
    requires size in {128, 256} && Start(kind) + ahead < 256
    ensures Wrap(Low(Start(kind) + ahead) as nat, size) == First(kind, size) + ahead
  {
    hide Low, First, Wrap, Start;
    LowOfSmall(Start(kind) + ahead);
    WrapAt(kind, size, Start(kind) + ahead);
  }

  lemma CharacterBack(kind: Kind, c: Config, size: nat, before: seq<bv8>, s: seq<bv8>, after: seq<bv8>, j: nat)
    requires size in {128, 256} && Room(kind, c) >= 0 && j < |s|
    requires Area(kind, c) == before + Entry(s) + after
    ensures First(kind, size) + |before| + 2 * j + 3 < 256
    ensures Image(kind, c, size)[First(kind, size) + |before| + 2 * j + 2] == s[j]
  {
    hide Image, Area, Room, First, Entry;
    AreaFits(kind, c, size);
    AreaAt(kind, c, size, |before| + 2 * j + 2);
    EntryAt(before, s, after, j);
  }

  /** The entry that follows some part of the string area is read back. */
  lemma ReadBack(kind: Kind, c: Config, size: nat, before: seq<bv8>, s: seq<bv8>, after: seq<bv8>, at: nat)
    requires size in {128, 256} && Room(kind, c) >= 0
    requires Area(kind, c) == before + Entry(s) + after && at == Start(kind) + |before|
    ensures var image, offset, length := Image(kind, c, size), Low(at), Low(2 * |s| + 2);
            StringInside(size, offset, length) && Characters(image, size, offset, length) == s
  {
    hide Image, Area, Room, Low, Wrap, First, Entry, Count, Start;
    AreaFits(kind, c, size);
    assert |Entry(s)| == 2 * |s| + 2;
    OffsetBack(kind, size, |before|);
    CountBack(|s|);
    var image, i := Image(kind, c, size), First(kind, size) + |before|;
    forall j | 0 <= j < |s|
      ensures 2 * j + i + 2 < 256 && image[2 * j + i + 2] == s[j]
    {
      CharacterBack(kind, c, size, before, s, after, j);
    }
  }

  lemma StringsBack(kind: Kind, c: Config, size: nat)
    requires size in {128, 256} && Room(kind, c) >= 0
    ensures var image := Image(kind, c, size);
            && Readable(image, size)
            && Characters(image, size, image[0x0E], image[0x0F]) == Kept(c.manufacturer)
            && Characters(image, size, image[0x10], image[0x11]) == Kept(c.product)
            && Characters(image, size, image[0x12], image[0x13]) == Kept(c.serial)
  {
    hide Image, Kept, Low, Entry, Characters, StringInside, Room, Start, ProductAt, SerialAt;
    var m, p, s := Kept(c.manufacturer), Kept(c.product), Kept(c.serial);
    StringHeaders(kind, c, size);
    PartsBack(kind, c, size, m, p, s);
  }

  lemma PartsBack(kind: Kind, c: Config, size: nat, m: seq<bv8>, p: seq<bv8>, s: seq<bv8>)
    requires size in {128, 256} && Room(kind, c) >= 0
    requires m == Kept(c.manufacturer) && p == Kept(c.product) && s == Kept(c.serial)
    ensures var image := Image(kind, c, size);
            && StringInside(size, Low(Start(kind)), Low(2 * |m| + 2))
            && StringInside(size, Low(ProductAt(kind, c)), Low(2 * |p| + 2))
            && StringInside(size, Low(SerialAt(kind, c)), Low(2 * |s| + 2))
            && Characters(image, size, Low(Start(kind)), Low(2 * |m| + 2)) == m
            && Characters(image, size, Low(ProductAt(kind, c)), Low(2 * |p| + 2)) == p
            && Characters(image, size, Low(SerialAt(kind, c)), Low(2 * |s| + 2)) == s
  {
    hide Image, Kept, Low, Entry, Characters, StringInside, Area, Room, Tail, Start;
    Parts(kind, c);
    ReadBack(kind, c, size, [], m, Entry(p) + Entry(s) + Tail(kind, c), Start(kind));
    ReadBack(kind, c, size, Entry(m), p, Entry(s) + Tail(kind, c), ProductAt(kind, c));
    ReadBack(kind, c, size, Entry(m) + Entry(p), s, Tail(kind, c), SerialAt(kind, c));
  }

  lemma StringHeaders(kind: Kind, c: Config, size: nat)
    requires size in {128, 256} && Room(kind, c) >= 0
    ensures var image := Image(kind, c, size);
            && image[0x0E] == Low(Start(kind)) && image[0x0F] == Low(2 * |Kept(c.manufacturer)| + 2)
            && image[0x10] == Low(ProductAt(kind, c)) && image[0x11] == Low(2 * |Kept(c.product)| + 2)
            && image[0x12] == Low(SerialAt(kind, c)) && image[0x13] == Low(2 * |Kept(c.serial)| + 2)
  {
    hide Image, Kept, Low, Wrap, First, Entry, Area, ProductAt, SerialAt;
    AreaFits(kind, c, size);
    HeaderAt(kind, c, size, 0x0E);
    HeaderAt(kind, c, size, 0x0F);
    HeaderAt(kind, c, size, 0x10);
    HeaderAt(kind, c, size, 0x11);
    HeaderAt(kind, c, size, 0x12);
    HeaderAt(kind, c, size, 0x13);
  }

  lemma Parts(kind: Kind, c: Config)
    ensures var m, p, s, t := Entry(Kept(c.manufacturer)), Entry(Kept(c.product)), Entry(Kept(c.serial)), Tail(kind, c);
            && Area(kind, c) == [] + m + (p + s + t) && Area(kind, c) == m + p + (s + t)
            && Area(kind, c) == (m + p) + s + t
  {
    hide Kept, Entry, Tail;
  }

  // ---------- what is recovered ----------

  /** The fields that every chip has. */
  predicate CommonBack(c: Config, d: Config)
  {
    && d.vendorId == c.vendorId % 0x10000 && d.productId == c.productId % 0x10000
    && d.releaseNumber == c.releaseNumber % 0x10000
    && d.selfPowered == c.selfPowered && d.remoteWakeup == c.remoteWakeup
    && d.inIsochronous == c.inIsochronous && d.outIsochronous == c.outIsochronous && d.useSerial == c.useSerial
    && d.maxPower == 2 * (c.maxPower / 2 % 256)
    && d.manufacturer == Kept(c.manufacturer) && d.product == Kept(c.product) && d.serial == Kept(c.serial)
  }

  function GroupBack(g: Group): (r: Group)
  {
    g.(drive := if g.drive > 3 then 3 else g.drive)
  }

  function TypeBack(kind: Kind, t: nat): (r: nat)
  {
    if t % 256 in {1, 2, 4} || (kind == H232 && t % 256 == 8) then t % 256 else 0
  }

  function CbusBack(f: nat): (r: nat)
  {
    if f > 12 then 0 else f
  }

  /** The fields of the chip. */
  predicate ChipBack(kind: Kind, c: Config, d: Config)
  {
    match kind
    case BM => d.useUsbVersion == c.useUsbVersion && d.usbVersion == c.usbVersion % 0x10000 && d.chip == -1
    case C2232 =>
      && d.useUsbVersion == c.useUsbVersion && d.usbVersion == c.usbVersion % 0x10000
      && d.suspendPullDowns == c.suspendPullDowns && d.chip == c.chip % 256
      && d.channelAType == TypeBack(kind, c.channelAType) && d.channelBType == TypeBack(kind, c.channelBType)
      && d.channelADriver == c.channelADriver && d.channelBDriver == c.channelBDriver
      && d.highCurrentA == c.highCurrentA && d.highCurrentB == c.highCurrentB
    case H2232 =>
      && GroupsBack(c, d) && d.suspendPullDowns == c.suspendPullDowns && d.chip == c.chip % 256
      && d.channelAType == TypeBack(kind, c.channelAType) && d.channelBType == TypeBack(kind, c.channelBType)
      && d.channelADriver == c.channelADriver && d.channelBDriver == c.channelBDriver
      && d.suspendDbus7 == c.suspendDbus7
    case H4232 =>
      && GroupsBack(c, d) && d.suspendPullDowns == c.suspendPullDowns && d.chip == c.chip % 256
      && d.channelADriver == c.channelADriver && d.channelBDriver == c.channelBDriver
      && d.channelCDriver == c.channelCDriver && d.channelDDriver == c.channelDDriver
      && d.rs485A == c.rs485A && d.rs485B == c.rs485B && d.rs485C == c.rs485C && d.rs485D == c.rs485D
    case H232 =>
      && d.suspendPullDowns == c.suspendPullDowns && d.chip == c.chip % 256
      && d.channelAType == TypeBack(kind, c.channelAType) && d.channelADriver == c.channelADriver
      && d.powerSave == c.powerSave && d.clockPolarity == c.clockPolarity && d.dataOrder == c.dataOrder
      && d.flowControl == c.flowControl && d.group0 == GroupBack(c.group0) && d.group1 == GroupBack(c.group1)
      && d.cbus0 == CbusBack(c.cbus0) && d.cbus1 == CbusBack(c.cbus1) && d.cbus2 == CbusBack(c.cbus2)
      && d.cbus3 == CbusBack(c.cbus3) && d.cbus4 == CbusBack(c.cbus4) && d.cbus5 == CbusBack(c.cbus5)
      && d.cbus6 == CbusBack(c.cbus6) && d.cbus7 == CbusBack(c.cbus7) && d.cbus8 == CbusBack(c.cbus8)
      && d.cbus9 == CbusBack(c.cbus9)
  }

  predicate GroupsBack(c: Config, d: Config)
  {
    && d.group0 == GroupBack(c.group0) && d.group1 == GroupBack(c.group1)
    && d.group2 == GroupBack(c.group2) && d.group3 == GroupBack(c.group3)
  }

  // ---------- byte by byte ----------

  lemma Flags08(c: Config)
    ensures Has(Byte08(c), 0x40) == c.selfPowered && Has(Byte08(c), 0x20) == c.remoteWakeup
  {
    hide With, Has;
    WithSets(0x80, 0x40, c.selfPowered);
    WithHas(With(0x80, 0x40, c.selfPowered), 0x20, c.remoteWakeup, 0x40);
    WithSets(With(0x80, 0x40, c.selfPowered), 0x20, c.remoteWakeup);
  }

  lemma Flags0A(kind: Kind, c: Config)
    ensures var b := Byte0A(kind, c);
            && Has(b, 0x01) == c.inIsochronous && Has(b, 0x02) == c.outIsochronous && Has(b, 0x08) == c.useSerial
            && (kind != BM ==> Has(b, 0x04) == c.suspendPullDowns)
            && (kind in {BM, C2232} ==> Has(b, 0x10) == c.useUsbVersion)
  {
    hide With, Has;
    var a4 := With(With(With(With(0, 0x01, c.inIsochronous), 0x02, c.outIsochronous), 0x08, c.useSerial), 0x04, c.suspendPullDowns);
    Four(0x01, c.inIsochronous, 0x02, c.outIsochronous, 0x08, c.useSerial, 0x04, c.suspendPullDowns);
    Four(0x01, c.inIsochronous, 0x02, c.outIsochronous, 0x08, c.useSerial, 0x10, c.useUsbVersion);
    WithSets(a4, 0x10, c.useUsbVersion);
    WithHas(a4, 0x10, c.useUsbVersion, 0x01);
    WithHas(a4, 0x10, c.useUsbVersion, 0x02);
    WithHas(a4, 0x10, c.useUsbVersion, 0x04);
    WithHas(a4, 0x10, c.useUsbVersion, 0x08);
  }

  /** A channel byte: a type in the low bits and two flags above. */
  lemma Channel(t: bv8, low: bv8, m1: bv8, on1: bool, m2: bv8, on2: bool)
    requires t & low == t && m1 & low == 0 && m2 & low == 0 && m1 & m2 == 0 && m1 != 0 && m2 != 0
    ensures var b := With(t, m1, on1); b & low == t && Has(b, m1) == on1
    ensures var b := With(With(t, m1, on1), m2, on2); b & low == t && Has(b, m1) == on1 && Has(b, m2) == on2
  {
    hide With, Has;
    WithSets(t, m1, on1);
    WithKeeps(t, m1, on1, low);
    WithSets(With(t, m1, on1), m2, on2);
    Swapped(m1, m2);
    WithHas(With(t, m1, on1), m2, on2, m1);
    WithKeeps(With(t, m1, on1), m2, on2, low);
  }

  lemma Swapped(a: bv8, b: bv8)
    ensures a & b == b & a
  {
  }

  lemma Fits(t: bv8)
    ensures t < 8 ==> t & 7 == t
    ensures t < 16 ==> t & 15 == t
  {
  }

  lemma LowTypes(kind: Kind, t: nat)
    ensures kind != H232 ==> TypeBits(kind, t) & 7 == TypeBits(kind, t) && BitsType(TypeBits(kind, t)) == TypeBack(kind, t)
    ensures TypeBits(kind, t) & 15 == TypeBits(kind, t) && TypeBits(kind, t) as nat == TypeBack(kind, t)
  {
    TypeRoundTrip(kind, t);
    Fits(TypeBits(kind, t));
  }

  // ---------- chip by chip ----------

  lemma Bytes00And01(kind: Kind, c: Config)
    ensures var a, b := Byte00(kind, c), Byte01(kind, c);
            && (kind == C2232 ==>
                  && a & 7 == TypeBits(kind, c.channelAType) && Has(a, 0x08) == c.channelADriver && Has(a, 0x10) == c.highCurrentA
                  && b & 7 == TypeBits(kind, c.channelBType) && Has(b, 0x08) == c.channelBDriver && Has(b, 0x10) == c.highCurrentB)
            && (kind == H2232 ==>
                  && a & 7 == TypeBits(kind, c.channelAType) && Has(a, 0x08) == c.channelADriver
                  && b & 7 == TypeBits(kind, c.channelBType) && Has(b, 0x08) == c.channelBDriver && Has(b, 0x80) == c.suspendDbus7)
            && (kind == H4232 ==>
                  && Has(a, 0x08) == c.channelADriver && Has(a, 0x80) == c.channelCDriver
                  && Has(b, 0x08) == c.channelBDriver && Has(b, 0x80) == c.channelDDriver)
            && (kind == H232 ==> a & 15 == TypeBits(kind, c.channelAType) && Has(a, 0x10) == c.channelADriver)
  {
    hide With, Has, TypeBits;
    LowTypes(kind, c.channelAType);
    LowTypes(kind, c.channelBType);
    var a, b := TypeBits(kind, c.channelAType), TypeBits(kind, c.channelBType);
    match kind {
      case BM =>
      case C2232 =>
        Channel(a, 7, 0x08, c.channelADriver, 0x10, c.highCurrentA);
        Channel(b, 7, 0x08, c.channelBDriver, 0x10, c.highCurrentB);
      case H2232 =>
        Channel(a, 7, 0x08, c.channelADriver, 0x80, false);
        Channel(b, 7, 0x08, c.channelBDriver, 0x80, c.suspendDbus7);
      case H4232 =>
        Channel(0, 7, 0x08, c.channelADriver, 0x80, c.channelCDriver);
        Channel(0, 7, 0x08, c.channelBDriver, 0x80, c.channelDDriver);
      case H232 =>
        Channel(a, 15, 0x10, c.channelADriver, 0x80, false);
    }
  }

  lemma Flags01H232(c: Config)
    ensures var b := Byte01(H232, c);
            && Has(b, 0x80) == c.powerSave && Has(b, 0x01) == c.clockPolarity && Has(b, 0x02) == c.dataOrder
            && Has(b, 0x04) == c.flowControl
  {
    Four(0x80, c.powerSave, 0x01, c.clockPolarity, 0x02, c.dataOrder, 0x04, c.flowControl);
  }

  lemma Flags0B(c: Config)
    ensures var b := Byte0B(H4232, c);
            Has(b, 0x10) == c.rs485A && Has(b, 0x20) == c.rs485B && Has(b, 0x40) == c.rs485C && Has(b, 0x80) == c.rs485D
  {
    Four(0x10, c.rs485A, 0x20, c.rs485B, 0x40, c.rs485C, 0x80, c.rs485D);
  }

  /** Four flags in one byte. */
  lemma Four(m1: bv8, on1: bool, m2: bv8, on2: bool, m3: bv8, on3: bool, m4: bv8, on4: bool)
    requires m1 != 0 && m2 != 0 && m3 != 0 && m4 != 0
    requires m2 & m1 == 0 && m3 & m1 == 0 && m4 & m1 == 0 && m3 & m2 == 0 && m4 & m2 == 0 && m4 & m3 == 0
    ensures var b := With(With(With(With(0, m1, on1), m2, on2), m3, on3), m4, on4);
            Has(b, m1) == on1 && Has(b, m2) == on2 && Has(b, m3) == on3 && Has(b, m4) == on4
  {
    hide With, Has;
    var a1 := With(0, m1, on1);
    var a2 := With(a1, m2, on2);
    var a3 := With(a2, m3, on3);
    WithSets(0, m1, on1);
    WithSets(a1, m2, on2);
    WithSets(a2, m3, on3);
    WithSets(a3, m4, on4);
    WithHas(a1, m2, on2, m1);
    WithHas(a2, m3, on3, m1);
    WithHas(a2, m3, on3, m2);
    WithHas(a3, m4, on4, m1);
    WithHas(a3, m4, on4, m2);
    WithHas(a3, m4, on4, m3);
  }

  lemma TopNibble(b: bv8)
    ensures Has(HighHalf(b), 0x08) == Has(b, 0x80)
  {
  }

  lemma GroupPair(g: Group, h: Group)
    ensures GroupOf(Pair(GroupBits(g), GroupBits(h))) == GroupBack(g)
    ensures GroupOf(HighHalf(Pair(GroupBits(g), GroupBits(h)))) == GroupBack(h)
  {
    hide GroupBits, GroupOf, Pair, HighHalf, LowHalf;
    GroupBitsSmall(g);
    GroupBitsSmall(h);
    GroupRoundTrip(g);
    GroupRoundTrip(h);
    Halves(GroupBits(g), GroupBits(h));
    LowGroup(Pair(GroupBits(g), GroupBits(h)));
  }

  lemma LowGroup(b: bv8)
    ensures GroupOf(LowHalf(b)) == GroupOf(b)
  {
  }

  lemma CbusPair(f: nat, g: nat)
    ensures LowHalf(Pair(Cbus(f), Cbus(g))) as nat == CbusBack(f) && HighHalf(Pair(Cbus(f), Cbus(g))) as nat == CbusBack(g)
  {
    hide Pair, LowHalf, HighHalf;
    CbusNumber(f);
    CbusNumber(g);
    Halves(Cbus(f), Cbus(g));
  }

  lemma CbusNumber(f: nat)
    ensures Cbus(f) as nat == CbusBack(f) && Cbus(f) < 16
  {
  }

  // ---------- the whole ----------

  lemma CommonRecovered(kind: Kind, c: Config, before: Config, size: nat)
    requires size in {128, 256} && Room(kind, c) >= 0
    ensures Readable(Image(kind, c, size), size)
    ensures CommonBack(c, DecodedCommon(before, Image(kind, c, size), size))
  {
    hide Image, Kept, Low, Wrap, First, Characters, StringInside, Area, Number, High, Byte08, Byte0A, Has;
    StringsBack(kind, c, size);
    AreaFits(kind, c, size);
    CommonHeader(kind, c, size);
    NumberRoundTrip(c.vendorId);
    NumberRoundTrip(c.productId);
    NumberRoundTrip(c.releaseNumber);
    LowIsRemainder(c.maxPower / 2);
    Flags08(c);
    Flags0A(kind, c);
  }

  lemma CommonHeader(kind: Kind, c: Config, size: nat)
    requires size in {128, 256} && Room(kind, c) >= 0
    ensures var image := Image(kind, c, size);
            && image[0x02] == Low(c.vendorId) && image[0x03] == High(c.vendorId)
            && image[0x04] == Low(c.productId) && image[0x05] == High(c.productId)
            && image[0x06] == Low(c.releaseNumber) && image[0x07] == High(c.releaseNumber)
            && image[0x08] == Byte08(c) && image[0x09] == Low(c.maxPower / 2) && image[0x0A] == Byte0A(kind, c)
  {
    hide Image, Low, First, High, Byte08, Byte0A;
    AreaFits(kind, c, size);
    HeaderAt(kind, c, size, 0x02);
    HeaderAt(kind, c, size, 0x03);
    HeaderAt(kind, c, size, 0x04);
    HeaderAt(kind, c, size, 0x05);
    HeaderAt(kind, c, size, 0x06);
    HeaderAt(kind, c, size, 0x07);
    HeaderAt(kind, c, size, 0x08);
    HeaderAt(kind, c, size, 0x09);
    HeaderAt(kind, c, size, 0x0A);
  }

  lemma ChipHeader(kind: Kind, c: Config, size: nat)
    requires size in {128, 256} && Room(kind, c) >= 0
    ensures var image := Image(kind, c, size);
            && image[0x00] == Byte00(kind, c) && image[0x01] == Byte01(kind, c) && image[0x0A] == Byte0A(kind, c)
            && image[0x0B] == Byte0B(kind, c) && image[0x0C] == Byte0C(kind, c) && image[0x0D] == Byte0D(kind, c)
  {
    hide Image, First, Byte00, Byte01, Byte0A, Byte0B, Byte0C, Byte0D;
    AreaFits(kind, c, size);
    HeaderAt(kind, c, size, 0x00);
    HeaderAt(kind, c, size, 0x01);
    HeaderAt(kind, c, size, 0x0A);
    HeaderAt(kind, c, size, 0x0B);
    HeaderAt(kind, c, size, 0x0C);
    HeaderAt(kind, c, size, 0x0D);
  }

  lemma ChipByte(kind: Kind, c: Config, size: nat)
    requires size in {128, 256} && Room(kind, c) >= 0
    ensures var image := Image(kind, c, size);
            && (kind == C2232 ==> image[0x14] == Low(c.chip))
            && (kind in {H2232, H4232} ==> image[0x18] == Low(c.chip))
            && (kind == H232 ==> image[0x1E] == Low(c.chip))
  {
    hide Image, First, Low;
    AreaFits(kind, c, size);
    match kind {
      case BM =>
      case C2232 => HeaderAt(kind, c, size, 0x14);
      case H232 => HeaderAt(kind, c, size, 0x1E);
      case _ => HeaderAt(kind, c, size, 0x18);
    }
  }

  lemma CbusBytes(c: Config)
    ensures HeaderByte(H232, c, 0x18) == Pair(Cbus(c.cbus0), Cbus(c.cbus1))
    ensures HeaderByte(H232, c, 0x19) == Pair(Cbus(c.cbus2), Cbus(c.cbus3))
    ensures HeaderByte(H232, c, 0x1A) == Pair(Cbus(c.cbus4), Cbus(c.cbus5))
    ensures HeaderByte(H232, c, 0x1B) == Pair(Cbus(c.cbus6), Cbus(c.cbus7))
    ensures HeaderByte(H232, c, 0x1C) == Pair(Cbus(c.cbus8), Cbus(c.cbus9))
  {
    hide Pair, Cbus, Low, High, Entry, Kept, Start, ProductAt, SerialAt;
  }

  lemma CbusHeader(c: Config, size: nat)
    requires size in {128, 256} && Room(H232, c) >= 0
    ensures var image := Image(H232, c, size);
            && image[0x18] == Pair(Cbus(c.cbus0), Cbus(c.cbus1)) && image[0x19] == Pair(Cbus(c.cbus2), Cbus(c.cbus3))
            && image[0x1A] == Pair(Cbus(c.cbus4), Cbus(c.cbus5)) && image[0x1B] == Pair(Cbus(c.cbus6), Cbus(c.cbus7))
            && image[0x1C] == Pair(Cbus(c.cbus8), Cbus(c.cbus9))
  {
    hide Image, First, Pair, Cbus, Room, Area, HeaderByte;
    AreaFits(H232, c, size);
    CbusBytes(c);
    HeaderAt(H232, c, size, 0x18);
    HeaderAt(H232, c, size, 0x19);
    HeaderAt(H232, c, size, 0x1A);
    HeaderAt(H232, c, size, 0x1B);
    HeaderAt(H232, c, size, 0x1C);
  }

  lemma ChipRecovered(kind: Kind, c: Config, before: Config, size: nat)
    requires size in {128, 256} && Room(kind, c) >= 0 && Readable(Image(kind, c, size), size)
    ensures ChipBack(kind, c, Decoded(kind, before, Image(kind, c, size), size))
  {
    hide *;
    match kind {
      case BM => RecoveredBM(c, before, size);
      case C2232 => Recovered2232C(c, before, size);
      case H2232 => Recovered2232H(c, before, size);
      case H4232 => Recovered4232H(c, before, size);
      case H232 => Recovered232H(c, before, size);
    }
  }

  lemma RecoveredBM(c: Config, before: Config, size: nat)
    requires size in {128, 256} && Room(BM, c) >= 0 && Readable(Image(BM, c, size), size)
    ensures ChipBack(BM, c, Decoded(BM, before, Image(BM, c, size), size))
  {
    hide Image, Low, High, Number, Has, Characters, Readable, Byte00, Byte01, Byte0A, Byte0B, GroupOf, GroupBits, Pair,
      HighHalf, LowHalf, Cbus, TypeBits, TypeBack, CbusBack, GroupBack, BitsType;
    ChipHeader(BM, c, size);
    ChipByte(BM, c, size);
    LowIsRemainder(c.chip);
    Flags0A(BM, c);
    NumberRoundTrip(c.usbVersion);
  }

  lemma Recovered2232C(c: Config, before: Config, size: nat)
    requires size in {128, 256} && Room(C2232, c) >= 0 && Readable(Image(C2232, c, size), size)
    ensures ChipBack(C2232, c, Decoded(C2232, before, Image(C2232, c, size), size))
  {
    hide Image, Low, High, Number, Has, Characters, Readable, Byte00, Byte01, Byte0A, Byte0B, GroupOf, GroupBits, Pair,
      HighHalf, LowHalf, Cbus, TypeBits, TypeBack, CbusBack, GroupBack, BitsType;
    ChipHeader(C2232, c, size);
    ChipByte(C2232, c, size);
    LowIsRemainder(c.chip);
    Flags0A(C2232, c);
    NumberRoundTrip(c.usbVersion);
    Bytes00And01(C2232, c);
    LowTypes(C2232, c.channelAType);
    LowTypes(C2232, c.channelBType);
  }

  lemma Recovered2232H(c: Config, before: Config, size: nat)
    requires size in {128, 256} && Room(H2232, c) >= 0 && Readable(Image(H2232, c, size), size)
    ensures ChipBack(H2232, c, Decoded(H2232, before, Image(H2232, c, size), size))
  {
    hide Image, Low, High, Number, Has, Characters, Readable, Byte00, Byte01, Byte0A, Byte0B, GroupOf, GroupBits, Pair,
      HighHalf, LowHalf, Cbus, TypeBits, TypeBack, CbusBack, GroupBack, BitsType;
    ChipHeader(H2232, c, size);
    ChipByte(H2232, c, size);
    LowIsRemainder(c.chip);
    Flags0A(H2232, c);
    Bytes00And01(H2232, c);
    LowTypes(H2232, c.channelAType);
    LowTypes(H2232, c.channelBType);
    GroupPair(c.group0, c.group1);
    GroupPair(c.group2, c.group3);
  }

  lemma Recovered4232H(c: Config, before: Config, size: nat)
    requires size in {128, 256} && Room(H4232, c) >= 0 && Readable(Image(H4232, c, size), size)
    ensures ChipBack(H4232, c, Decoded(H4232, before, Image(H4232, c, size), size))
  {
    hide Image, Low, High, Number, Has, Characters, Readable, Byte00, Byte01, Byte0A, Byte0B, GroupOf, GroupBits, Pair,
      HighHalf, LowHalf, Cbus, TypeBits, TypeBack, CbusBack, GroupBack, BitsType;
    ChipHeader(H4232, c, size);
    ChipByte(H4232, c, size);
    LowIsRemainder(c.chip);
    Flags0A(H4232, c);
    Bytes00And01(H4232, c);
    GroupPair(c.group0, c.group1);
    GroupPair(c.group2, c.group3);
    Flags0B(c);
    TopNibble(Byte00(H4232, c));
    TopNibble(Byte01(H4232, c));
  }

  lemma Recovered232H(c: Config, before: Config, size: nat)
    requires size in {128, 256} && Room(H232, c) >= 0 && Readable(Image(H232, c, size), size)
    ensures ChipBack(H232, c, Decoded(H232, before, Image(H232, c, size), size))
  {
    hide Image, Low, High, Number, Has, Characters, Readable, Byte00, Byte01, Byte0A, Byte0B, GroupOf, GroupBits, Pair,
      HighHalf, LowHalf, Cbus, TypeBits, TypeBack, CbusBack, GroupBack, BitsType;
    ChipHeader(H232, c, size);
    ChipByte(H232, c, size);
    CbusHeader(c, size);
    LowIsRemainder(c.chip);
    Bytes00And01(H232, c);
    Flags0A(H232, c);
    Flags01H232(c);
    LowTypes(H232, c.channelAType);
    CbusPair(c.cbus0, c.cbus1);
    CbusPair(c.cbus2, c.cbus3);
    CbusPair(c.cbus4, c.cbus5);
    CbusPair(c.cbus6, c.cbus7);
    CbusPair(c.cbus8, c.cbus9);
    AloneGroup(c.group0);
    AloneGroup(c.group1);
  }

  lemma AloneGroup(g: Group)
    ensures GroupOf(GroupBits(g)) == GroupBack(g)
  {
    GroupRoundTrip(g);
  }

  /** What is built is accepted, its strings lie inside it, and it is decoded to what was configured,
      as far as the header holds it: whatever the decoder held before. */
  lemma RoundTrip(kind: Kind, c: Config, before: Config, size: nat)
    requires size in {128, 256} && Room(kind, c) >= 0
    ensures var image := Image(kind, c, size);
            && Accepted(image, size) && Readable(image, size)
            && CommonBack(c, Decoded(kind, before, image, size)) && ChipBack(kind, c, Decoded(kind, before, image, size))
  {
    hide DecodedCommon, CommonBack, ChipBack, Readable, Accepted;
    SealedAccepted(Body(kind, c, size), size);
    CommonRecovered(kind, c, before, size);
    ChipRecovered(kind, c, before, size);
    CommonStays(kind, c, before, Image(kind, c, size), size);
  }

  /** The part that depends on the chip leaves the common fields alone. */
  lemma CommonStays(kind: Kind, c: Config, before: Config, image: seq<bv8>, size: nat)
    requires size in {128, 256} && |image| == 256 && Readable(image, size)
    requires CommonBack(c, DecodedCommon(before, image, size))
    ensures CommonBack(c, Decoded(kind, before, image, size))
  {
    hide DecodedCommon, Readable, Has, BitsType, GroupOf, HighHalf, LowHalf, Kept;
  }

  /** The strings come back whole exactly when each is shorter than 256 characters: the test of the
      size looks at the length in a byte, and lets longer strings pass. */
  lemma StringsWhole(kind: Kind, c: Config, before: Config, size: nat)
    requires size in {128, 256} && Room(kind, c) >= 0
    ensures Readable(Image(kind, c, size), size)
    ensures var d := Decoded(kind, before, Image(kind, c, size), size);
            d.manufacturer == c.manufacturer && d.product == c.product && d.serial == c.serial
            <==> |c.manufacturer| < 256 && |c.product| < 256 && |c.serial| < 256
  {
    RoundTrip(kind, c, before, size);
    hide Image, Decoded, Room, Readable, ChipBack;
    KeptWhole(c.manufacturer);
    KeptWhole(c.product);
    KeptWhole(c.serial);
  }

  lemma KeptWhole(s: seq<bv8>)
    ensures Kept(s) == s <==> |s| < 256
  {
  }

  /** A configuration with a manufacturer and nothing else. */
  function Plain(manufacturer: seq<bv8>): (c: Config)
  {
    var g := Group(0, false, false);
    Config(0, 0, 0, false, false, 0, false, false, false, false, false, 0, false, 0, manufacturer, [], [],
      0, 0, false, false, false, false, false, false, false, false, 0, 0, 0, 0, 0, 0, 0, 0, 0, 0,
      false, false, g, g, g, g, false, false, false, false, 0x46)
  }

  /** A name of 256 characters passes the test, and an empty one comes back. */
  lemma LongNameCut(kind: Kind, before: Config, size: nat)
    requires size in {128, 256}
    ensures var name: seq<bv8> := seq(256, _ => 0x41);
            && Room(kind, Plain(name)) >= 0 && Readable(Image(kind, Plain(name), size), size)
            && Decoded(kind, before, Image(kind, Plain(name), size), size).manufacturer == [] != name
  {
    var name: seq<bv8> := seq(256, _ => 0x41);
    var c := Plain(name);
    assert Kept(name) == [] && Kept(c.product) == [] && Kept(c.serial) == [];
    RoundTrip(kind, c, before, size);
    hide *;
  }
}
