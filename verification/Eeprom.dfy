/** Building and decoding the image in the buffer. */
module Eeproms {
  import opened EepromImage
  import opened EepromRoundTrip

  /** The size that is taken when none is known. */
  function ChosenSize(size: int, chip: int): (s: int)
  {
    if size == -1 then (if chip == 0x56 || chip == 0x66 then 256 else 128) else size
  }

  function CbusAt(c: Config, i: nat): (f: nat)
    requires i < 10
  {
    match i
    case 0 => c.cbus0
    case 1 => c.cbus1
    case 2 => c.cbus2
    case 3 => c.cbus3
    case 4 => c.cbus4
    case 5 => c.cbus5
    case 6 => c.cbus6
    case 7 => c.cbus7
    case 8 => c.cbus8
    case _ => c.cbus9
  }

  lemma CbusByte(c: Config, i: nat)
    requires i < 5
    ensures HeaderByte(H232, c, 0x18 + i) == Pair(Cbus(CbusAt(c, 2 * i)), Cbus(CbusAt(c, 2 * i + 1)))
  {
    hide Pair, Cbus, HeaderByte;
    CbusBytes(c);
  }

  /** The flags of all chips in byte 0x0A, before those of the chip. */
  function Flags(c: Config): (b: bv8)
  {
    With(With(With(0, 0x01, c.inIsochronous), 0x02, c.outIsochronous), 0x08, c.useSerial)
  }

  lemma SetAgain(b: bv8, mask: bv8, on: bool)
    requires Has(b, mask) == on && mask & (mask - 1) == 0
    ensures With(b, mask, on) == b
  {
  }

  lemma FlagsSetAgain(c: Config)
    ensures With(With(Flags(c), 0x01, c.inIsochronous), 0x02, c.outIsochronous) == Flags(c)
  {
    hide With, Has;
    Four(0x01, c.inIsochronous, 0x02, c.outIsochronous, 0x08, c.useSerial, 0x40, false);
    var a1 := With(0, 0x01, c.inIsochronous);
    var a2 := With(a1, 0x02, c.outIsochronous);
    WithSets(0, 0x01, c.inIsochronous);
    WithSets(a1, 0x02, c.outIsochronous);
    WithHas(a1, 0x02, c.outIsochronous, 0x01);
    WithHas(a2, 0x08, c.useSerial, 0x01);
    WithHas(a2, 0x08, c.useSerial, 0x02);
    SetAgain(Flags(c), 0x01, c.inIsochronous);
    SetAgain(Flags(c), 0x02, c.outIsochronous);
  }

  function Schmitt(g: Group): (b: bv8)
  {
    if g.schmitt then 8 else 0
  }

  function Slew(g: Group): (b: bv8)
  {
    if g.slew then 4 else 0
  }

  lemma OneGroup(g: Group)
    ensures 0 | Drive(g.drive) | Schmitt(g) | Slew(g) == GroupBits(g)
  {
  }

  lemma TwoGroups(low: bv8, d: bv8, s: bv8, l: bv8)
    ensures low | (d << 4) | (s << 4) | (l << 4) == Pair(low, 0 | d | s | l)
  {
  }

  class Eeprom {
    const kind: Kind
    const buf: array<bv8>
    var config: Config
    var size: int
    var initialized: bool

    constructor (kind: Kind, config: Config, size: int)
      ensures this.kind == kind && this.config == config && this.size == size && !initialized
      ensures fresh(buf) && buf.Length == 256
    {
      this.kind, this.config, this.size, initialized := kind, config, size, false;
      buf := new bv8[256];
    }

    /** The image of the configuration, or an error: -6 when the chip is not known, -1 when the
        strings do not fit. Otherwise the room that is left. */
    method Build() returns (r: int)
      requires buf.Length == 256 && size in {-1, 128, 256}
      modifies this`size, this`initialized, buf
      ensures r == if config.chip == -1 then -6 else if Room(kind, config) < 0 then -1 else Room(kind, config)
      ensures size == if r == -6 then old(size) else ChosenSize(old(size), config.chip)
      ensures if r >= 0 then initialized && buf[..] == Image(kind, config, size)
              else initialized == old(initialized) && buf[..] == old(buf[..])
    {
      hide Image, Body, HeaderByte, Area, Entry, Kept, Checksum;
      if config.chip == -1 {
        return -6;
      }
      if size == -1 {
        if config.chip == 0x56 || config.chip == 0x66 {
          size := 0x100;
        } else {
          size := 0x80;
        }
      }
      r := Limit(kind);
      r := r - (|Kept(config.manufacturer)| + |Kept(config.product)| + |Kept(config.serial)|) * 2;
      if r < 0 {
        return -1;
      }
      forall k | 0 <= k < 256 {
        buf[k] := 0;
      }
      Assemble();
      var sum := Sum();
      buf[size - 2] := LowOf(sum);
      buf[size - 1] := HighOf(sum);
      initialized := true;
      SealedIs(kind, config, size, buf[..], sum);
    }

    /** All but the checksum, in an empty buffer. */
    method Assemble()
      requires buf.Length == 256 && size in {128, 256} && Room(kind, config) >= 0
      requires forall k :: 0 <= k < 256 ==> buf[k] == 0
      modifies buf
      ensures buf[..] == Body(kind, config, size)
    {
      hide HeaderByte, Area, Entry, Kept, First, Room, Flags, Byte00, Byte01, Byte0A, Byte0B, Byte0C, Byte0D, With;
      AreaFits(kind, config, size);
      WriteCommon();
      WriteStrings();
      WriteChip();
      ChipHeaderBytes(kind, config);
      assert forall k :: 0 <= k < First(kind, size) ==> buf[..][k] == HeaderByte(kind, config, k);
      BodyIs(kind, config, size, buf[..]);
    }

    method WriteCommon()
      requires buf.Length == 256 && forall k :: 0 <= k < 256 ==> buf[k] == 0
      modifies buf
      ensures forall k :: 2 <= k <= 9 ==> buf[k] == HeaderByte(kind, config, k)
      ensures buf[0x0A] == With(With(0, 0x01, config.inIsochronous), 0x02, config.outIsochronous)
      ensures forall k :: 0 <= k < 256 && !(2 <= k <= 0x0A) ==> buf[k] == 0
    {
      hide With, HeaderByte;
      WriteIds();
      WriteConfiguration();
    }

    method WriteIds()
      requires buf.Length == 256
      modifies buf
      ensures forall k :: 2 <= k <= 7 ==> buf[k] == HeaderByte(kind, config, k)
      ensures forall k :: 0 <= k < 256 && !(2 <= k <= 7) ==> buf[k] == old(buf[k])
    {
      hide Low, High, HeaderByte;
      CommonHeaderBytes(kind, config);
      buf[0x02] := Low(config.vendorId);
      buf[0x03] := High(config.vendorId);
      buf[0x04] := Low(config.productId);
      buf[0x05] := High(config.productId);
      buf[0x06] := Low(config.releaseNumber);
      buf[0x07] := High(config.releaseNumber);
    }

    method WriteConfiguration()
      requires buf.Length == 256
      modifies buf
      ensures buf[0x08] == HeaderByte(kind, config, 0x08) && buf[0x09] == HeaderByte(kind, config, 0x09)
      ensures buf[0x0A] == With(With(0, 0x01, config.inIsochronous), 0x02, config.outIsochronous)
      ensures forall k :: 0 <= k < 256 && !(8 <= k <= 0x0A) ==> buf[k] == old(buf[k])
    {
      hide Low, With, HeaderByte;
      CommonHeaderBytes(kind, config);
      var j := With(With(0x80, 0x40, config.selfPowered), 0x20, config.remoteWakeup);
      buf[0x08] := j;
      buf[0x09] := Low(config.maxPower / 2);
      j := With(With(0, 0x01, config.inIsochronous), 0x02, config.outIsochronous);
      buf[0x0A] := j;
    }

    /** The strings, with their offsets and lengths in the header, and the use of the serial number. */
    method WriteStrings()
      requires buf.Length == 256 && size in {128, 256} && Room(kind, config) >= 0
      requires buf[0x0A] == With(With(0, 0x01, config.inIsochronous), 0x02, config.outIsochronous)
      modifies buf
      ensures buf[0x0A] == Flags(config)
      ensures forall k :: 0x0E <= k <= 0x13 ==> buf[k] == HeaderByte(kind, config, k)
      ensures var first, area := First(kind, size), Area(kind, config);
              && first + |area| <= size - 6 && buf[first..first + |area|] == area
              && (forall k :: 0 <= k < 256 && k != 0x0A && !(0x0E <= k <= 0x13) && !(first <= k < first + |area|) ==>
                    buf[k] == old(buf[k]))
    {
      hide Low, With, Area, Entry, Kept, First, Room, Start, HeaderByte, Tail, Limit, StringHeader;
      AreaFits(kind, config, size);
      StringHeaderBytes(kind, config);
      PutArea();
      ghost var before := buf[..];
      buf[0x0A] := With(buf[0x0A], 0x08, config.useSerial);
      ghost var first, n := First(kind, size), |Area(kind, config)|;
      assert buf[first..first + n] == before[first..first + n];
    }

    method PutArea()
      requires buf.Length == 256 && size in {128, 256} && Room(kind, config) >= 0
      modifies buf
      ensures var first, n := First(kind, size), |Area(kind, config)|;
              && first >= 0x14 && first + n <= size - 6
              && Placed(buf[..], 0x0E, StringHeader(kind, config)) && Placed(buf[..], first, Area(kind, config))
              && Only(old(buf[..]), buf[..], 0x0E, 6, first, n)
    {
      hide Low, Area, Entry, Kept, First, Room, Start, Tail, Limit, Placed, Only;
      Layout(kind, config, size);
      ghost var first, b0 := First(kind, size), buf[..];
      ghost var m, p := Kept(config.manufacturer), Kept(config.product);
      var i := PutNames();
      ghost var b1 := buf[..];
      PutSerial(i);
      ghost var names, rest := Entry(m) + Entry(p), Entry(Kept(config.serial)) + Tail(kind, config);
      ghost var head, next := NamesHeader(kind, config), [Low(i), Low(2 * |Kept(config.serial)| + 2)];
      BothPlaced(b0, b1, buf[..], 0x0E, head, next, first, names, rest);
      assert StringHeader(kind, config) == head + next;
    }

    method PutNames() returns (i: nat)
      requires buf.Length == 256 && size in {128, 256} && Room(kind, config) >= 0
      modifies buf
      ensures var m, p, first := Entry(Kept(config.manufacturer)), Entry(Kept(config.product)), First(kind, size);
              && i == Start(kind) + |m| + |p|
              && Placed(buf[..], 0x0E, NamesHeader(kind, config)) && Placed(buf[..], first, m + p)
              && Only(old(buf[..]), buf[..], 0x0E, 4, first, |m + p|)
    {
      hide Low, Area, Entry, Kept, First, Room, Start, Tail, Limit, Placed, Only;
      Layout(kind, config, size);
      ghost var first, b0 := First(kind, size), buf[..];
      ghost var m, p := Kept(config.manufacturer), Kept(config.product);
      i := Start(kind);
      i := PutEntry(0x0E, i, Kept(config.manufacturer));
      ghost var b1 := buf[..];
      i := PutEntry(0x10, i, Kept(config.product));
      ghost var head, next := [Low(Start(kind)), Low(2 * |m| + 2)], [Low(Start(kind) + |Entry(m)|), Low(2 * |p| + 2)];
      BothPlaced(b0, b1, buf[..], 0x0E, head, next, first, Entry(m), Entry(p));
      assert NamesHeader(kind, config) == head + next;
    }

    method PutSerial(start: nat)
      requires buf.Length == 256 && size in {128, 256} && Room(kind, config) >= 0
      requires start == Start(kind) + |Entry(Kept(config.manufacturer))| + |Entry(Kept(config.product))|
      modifies buf
      ensures var s, t, at := Entry(Kept(config.serial)), Tail(kind, config), First(kind, size) + (start - Start(kind));
              && Placed(buf[..], 0x12, [Low(start), Low(2 * |Kept(config.serial)| + 2)])
              && Placed(buf[..], at, s + t) && Only(old(buf[..]), buf[..], 0x12, 2, at, |s + t|)
    {
      hide Low, Area, Entry, Kept, First, Room, Start, Tail, Limit, Placed, Only;
      Layout(kind, config, size);
      ghost var s, t, at := Entry(Kept(config.serial)), Tail(kind, config), First(kind, size) + (start - Start(kind));
      ghost var b0 := buf[..];
      var i := PutEntry(0x12, start, Kept(config.serial));
      ghost var b1 := buf[..];
      if kind != BM {
        i := PutTail(i);
      } else {
        NothingPlaced(b1, 0x14, at + |s|, t);
      }
      ghost var head := [Low(start), Low(2 * |Kept(config.serial)| + 2)];
      BothPlaced(b0, b1, buf[..], 0x12, head, [], at, s, t);
      assert head + [] == head;
    }

    /** A string with its offset and its length in the header. */
    method PutEntry(header: nat, start: nat, s: seq<bv8>) returns (i: nat)
      requires buf.Length == 256 && size in {128, 256} && Start(kind) <= start && start + |Entry(s)| <= 250
      requires header < 0x13 && First(kind, size) >= 0x14
      modifies buf
      ensures i == start + |Entry(s)|
      ensures var at := First(kind, size) + (start - Start(kind));
              && Placed(buf[..], header, [Low(start), Low(2 * |s| + 2)]) && Placed(buf[..], at, Entry(s))
              && Only(old(buf[..]), buf[..], header, 2, at, |Entry(s)|)
    {
      hide Low, Entry, First, Start;
      buf[header] := Low(start);
      i := PutString(start, s);
      buf[header + 1] := Low(2 * |s| + 2);
    }

    /** A string goes in at a running offset that wraps around in smaller parts. */
    method PutString(start: nat, s: seq<bv8>) returns (i: nat)
      requires buf.Length == 256 && size in {128, 256} && Start(kind) <= start && start + |Entry(s)| <= 250
      modifies buf
      ensures i == start + |Entry(s)|
      ensures var at := First(kind, size) + (start - Start(kind));
              && at + |Entry(s)| <= 256
              && (forall k :: at <= k < at + |Entry(s)| ==> buf[k] == Entry(s)[k - at])
              && (forall k :: 0 <= k < 256 && !(at <= k < at + |Entry(s)|) ==> buf[k] == old(buf[k]))
    {
      hide First, Wrap, Start, Low, Entry;
      EntryHead(s);
      ghost var at := First(kind, size) + (start - Start(kind));
      FirstIs(kind, size);
      i := start;
      WrapAt(kind, size, i);
      WrapAt(kind, size, i + 1);
      buf[Wrap(i, size)] := Low(2 * |s| + 2);
      i := i + 1;
      buf[Wrap(i, size)] := 3;
      i := i + 1;
      var j := 0;
      while j < |s|
        invariant 0 <= j <= |s| && i == start + 2 + 2 * j
        invariant forall k :: at <= k < at + 2 + 2 * j ==> buf[k] == Entry(s)[k - at]
        invariant forall k :: 0 <= k < 256 && !(at <= k < at + 2 + 2 * j) ==> buf[k] == old(buf[k])
      {
        WrapAt(kind, size, i);
        WrapAt(kind, size, i + 1);
        EntryPair(s, j);
        buf[Wrap(i, size)] := s[j];
        i := i + 1;
        buf[Wrap(i, size)] := 0;
        i := i + 1;
        j := j + 1;
      }
    }

    /** The three bytes that follow the strings on the newer chips. */
    method PutTail(start: nat) returns (i: nat)
      requires buf.Length == 256 && size in {128, 256} && Start(kind) <= start && start + 3 <= 250 && kind != BM
      modifies buf
      ensures var at := First(kind, size) + (start - Start(kind));
              Placed(buf[..], 0x14, []) && Placed(buf[..], at, Tail(kind, config)) && Only(old(buf[..]), buf[..], 0x14, 0, at, 3)
    {
      hide First, Wrap, Start, Low, Placed, Only;
      FirstIs(kind, size);
      ghost var at, b0 := First(kind, size) + (start - Start(kind)), buf[..];
      i := start;
      WrapAt(kind, size, i);
      WrapAt(kind, size, i + 1);
      WrapAt(kind, size, i + 2);
      buf[Wrap(i, size)] := 2;
      i := i + 1;
      buf[Wrap(i, size)] := 3;
      i := i + 1;
      buf[Wrap(i, size)] := Low(config.isNotPnp);
      i := i + 1;
      TailPlaced(b0, buf[..], at, Low(config.isNotPnp));
    }

    /** The bytes that depend on the chip, as they are before. */
    ghost predicate Ready()
      reads this, buf
    {
      && buf.Length == 256 && buf[0x0A] == Flags(config)
      && buf[0x00] == 0 && buf[0x01] == 0 && buf[0x0B] == 0 && buf[0x0C] == 0 && buf[0x0D] == 0
    }

    ghost predicate ChipBytes()
      requires buf.Length == 256
      reads this, buf
    {
      && buf[0x00] == Byte00(kind, config) && buf[0x01] == Byte01(kind, config) && buf[0x0A] == Byte0A(kind, config)
      && buf[0x0B] == Byte0B(kind, config) && buf[0x0C] == Byte0C(kind, config) && buf[0x0D] == Byte0D(kind, config)
    }

    method WriteChip()
      requires Ready() && size in {128, 256} && Room(kind, config) >= 0
      requires forall k :: 0x14 <= k < First(kind, size) ==> buf[k] == 0
      modifies buf
      ensures ChipBytes()
      ensures forall k :: 0x14 <= k < First(kind, size) ==> buf[k] == HeaderByte(kind, config, k)
      ensures forall k :: (2 <= k <= 9) || (0x0E <= k <= 0x13) || (First(kind, size) <= k < 256) ==> buf[k] == old(buf[k])
    {
      hide Flags, Low, First, Room, Byte00, Byte01, Byte0A, Byte0B, Byte0C, Byte0D, Pair, Cbus;
      AreaFits(kind, config, size);
      match kind {
        case BM => WriteBM();
        case C2232 => Write2232C();
        case H2232 => Write2232H();
        case H4232 => Write4232H();
        case H232 => Write232H();
      }
    }

    method WriteBM()
      requires Ready() && kind == BM
      modifies buf
      ensures ChipBytes()
      ensures forall k :: 0 <= k < 256 && k !in {0, 1, 0x0A, 0x0B, 0x0C, 0x0D} ==> buf[k] == old(buf[k])
    {
      hide Low, With;
      buf[0x0C] := Low(config.usbVersion);
      buf[0x0D] := High(config.usbVersion);
      buf[0x0A] := With(buf[0x0A], 0x10, config.useUsbVersion);
    }

    method Write2232C()
      requires Ready() && kind == C2232
      modifies buf
      ensures ChipBytes()
      ensures buf[0x14] == Low(config.chip)
      ensures forall k :: 0 <= k < 256 && k !in {0, 1, 0x0A, 0x0B, 0x0C, 0x0D, 0x14} ==> buf[k] == old(buf[k])
    {
      hide Low, With, TypeBits;
      buf[0x00] := TypeBits(C2232, config.channelAType);
      buf[0x00] := With(buf[0x00], 0x08, config.channelADriver);
      buf[0x00] := With(buf[0x00], 0x10, config.highCurrentA);
      buf[0x01] := TypeBits(C2232, config.channelBType);
      buf[0x01] := With(buf[0x01], 0x08, config.channelBDriver);
      buf[0x01] := With(buf[0x01], 0x10, config.highCurrentB);
      Write2232CFlags();
      buf[0x0C] := Low(config.usbVersion);
      buf[0x0D] := High(config.usbVersion);
      buf[0x14] := Low(config.chip);
    }

    method Write2232CFlags()
      requires buf.Length == 256 && buf[0x0A] == Flags(config) && kind == C2232
      modifies buf
      ensures buf[0x0A] == Byte0A(kind, config)
      ensures forall k :: 0 <= k < 256 && k != 0x0A ==> buf[k] == old(buf[k])
    {
      hide With;
      FlagsSetAgain(config);
      buf[0x0A] := With(buf[0x0A], 0x01, config.inIsochronous);
      buf[0x0A] := With(buf[0x0A], 0x02, config.outIsochronous);
      buf[0x0A] := With(buf[0x0A], 0x04, config.suspendPullDowns);
      buf[0x0A] := With(buf[0x0A], 0x10, config.useUsbVersion);
    }

    method Write2232H()
      requires Ready() && kind == H2232
      modifies buf
      ensures ChipBytes()
      ensures buf[0x18] == Low(config.chip)
      ensures forall k :: 0 <= k < 256 && k !in {0, 1, 0x0A, 0x0B, 0x0C, 0x0D, 0x18} ==> buf[k] == old(buf[k])
    {
      hide Low, With, TypeBits, Pair, GroupBits;
      buf[0x00] := TypeBits(H2232, config.channelAType);
      buf[0x00] := With(buf[0x00], 0x08, config.channelADriver);
      buf[0x01] := TypeBits(H2232, config.channelBType);
      buf[0x01] := With(buf[0x01], 0x08, config.channelBDriver);
      buf[0x01] := With(buf[0x01], 0x80, config.suspendDbus7);
      buf[0x0A] := With(buf[0x0A], 0x04, config.suspendPullDowns);
      PutGroups();
      buf[0x18] := Low(config.chip);
    }

    method Write4232H()
      requires Ready() && kind == H4232
      modifies buf
      ensures ChipBytes()
      ensures buf[0x18] == Low(config.chip)
      ensures forall k :: 0 <= k < 256 && k !in {0, 1, 0x0A, 0x0B, 0x0C, 0x0D, 0x18} ==> buf[k] == old(buf[k])
    {
      hide Low, With, Pair, GroupBits, Byte0B;
      buf[0x00] := With(buf[0x00], 0x08, config.channelADriver);
      buf[0x01] := With(buf[0x01], 0x08, config.channelBDriver);
      buf[0x00] := With(buf[0x00], 0x80, config.channelCDriver);
      buf[0x01] := With(buf[0x01], 0x80, config.channelDDriver);
      buf[0x0A] := With(buf[0x0A], 0x04, config.suspendPullDowns);
      Write4232HRs485();
      PutGroups();
      buf[0x18] := Low(config.chip);
    }

    method Write4232HRs485()
      requires buf.Length == 256 && buf[0x0B] == 0 && kind == H4232
      modifies buf
      ensures buf[0x0B] == Byte0B(kind, config)
      ensures forall k :: 0 <= k < 256 && k != 0x0B ==> buf[k] == old(buf[k])
    {
      hide With;
      buf[0x0B] := With(buf[0x0B], 0x10, config.rs485A);
      buf[0x0B] := With(buf[0x0B], 0x20, config.rs485B);
      buf[0x0B] := With(buf[0x0B], 0x40, config.rs485C);
      buf[0x0B] := With(buf[0x0B], 0x80, config.rs485D);
    }

    method Write232H()
      requires Ready() && kind == H232
      modifies buf
      ensures ChipBytes()
      ensures buf[0x1E] == Low(config.chip)
      ensures forall k :: 0x18 <= k <= 0x1C ==> buf[k] == HeaderByte(H232, config, k)
      ensures forall k :: 0 <= k < 256 && k !in {0, 1, 0x0A, 0x0B, 0x0C, 0x0D, 0x1E} && !(0x18 <= k <= 0x1C) ==> buf[k] == old(buf[k])
    {
      hide Low, With, TypeBits, Pair, GroupBits, HeaderByte, Byte0A, Byte01;
      buf[0x00] := TypeBits(H232, config.channelAType);
      buf[0x00] := With(buf[0x00], 0x10, config.channelADriver);
      Write232HFlags();
      PutLowGroup(0x0C, config.group0);
      PutLowGroup(0x0D, config.group1);
      PutCbus();
      buf[0x1E] := Low(config.chip);
    }

    method Write232HFlags()
      requires buf.Length == 256 && buf[0x0A] == Flags(config) && buf[0x01] == 0 && kind == H232
      modifies buf
      ensures buf[0x0A] == Byte0A(kind, config) && buf[0x01] == Byte01(kind, config)
      ensures forall k :: 0 <= k < 256 && k != 0x0A && k != 0x01 ==> buf[k] == old(buf[k])
    {
      hide With;
      buf[0x01] := With(buf[0x01], 0x80, config.powerSave);
      buf[0x0A] := With(buf[0x0A], 0x04, config.suspendPullDowns);
      buf[0x01] := With(buf[0x01], 0x01, config.clockPolarity);
      buf[0x01] := With(buf[0x01], 0x02, config.dataOrder);
      buf[0x01] := With(buf[0x01], 0x04, config.flowControl);
    }

    method PutGroups()
      requires buf.Length == 256 && buf[0x0C] == 0 && buf[0x0D] == 0
      modifies buf
      ensures buf[0x0C] == Pair(GroupBits(config.group0), GroupBits(config.group1))
      ensures buf[0x0D] == Pair(GroupBits(config.group2), GroupBits(config.group3))
      ensures forall k :: 0 <= k < 256 && k != 0x0C && k != 0x0D ==> buf[k] == old(buf[k])
    {
      hide Pair, GroupBits;
      PutLowGroup(0x0C, config.group0);
      PutHighGroup(0x0C, config.group0, config.group1);
      PutLowGroup(0x0D, config.group2);
      PutHighGroup(0x0D, config.group2, config.group3);
    }

    method PutLowGroup(at: nat, g: Group)
      requires buf.Length == 256 && at < 256 && buf[at] == 0
      modifies buf
      ensures buf[at] == GroupBits(g)
      ensures forall k :: 0 <= k < 256 && k != at ==> buf[k] == old(buf[k])
    {
      OneGroup(g);
      buf[at] := buf[at] | Drive(g.drive);
      buf[at] := buf[at] | Schmitt(g);
      buf[at] := buf[at] | Slew(g);
    }

    method PutHighGroup(at: nat, low: Group, g: Group)
      requires buf.Length == 256 && at < 256 && buf[at] == GroupBits(low)
      modifies buf
      ensures buf[at] == Pair(GroupBits(low), GroupBits(g))
      ensures forall k :: 0 <= k < 256 && k != at ==> buf[k] == old(buf[k])
    {
      hide Pair, GroupBits, Drive, Schmitt, Slew;
      OneGroup(g);
      TwoGroups(GroupBits(low), Drive(g.drive), Schmitt(g), Slew(g));
      buf[at] := buf[at] | (Drive(g.drive) << 4);
      buf[at] := buf[at] | (Schmitt(g) << 4);
      buf[at] := buf[at] | (Slew(g) << 4);
    }

    method PutCbus()
      requires buf.Length == 256
      modifies buf
      ensures forall k :: 0x18 <= k <= 0x1C ==> buf[k] == HeaderByte(H232, config, k)
      ensures forall k :: 0 <= k < 256 && !(0x18 <= k <= 0x1C) ==> buf[k] == old(buf[k])
    {
      hide Pair, Cbus, HeaderByte, CbusAt;
      var i := 0;
      while i < 5
        invariant 0 <= i <= 5
        invariant forall k :: 0x18 <= k < 0x18 + i ==> buf[k] == HeaderByte(H232, config, k)
        invariant forall k :: 0 <= k < 256 && !(0x18 <= k < 0x18 + i) ==> buf[k] == old(buf[k])
      {
        CbusByte(config, i);
        var modeLow, modeHigh := Cbus(CbusAt(config, 2 * i)), Cbus(CbusAt(config, 2 * i + 1));
        buf[0x18 + i] := Pair(modeLow, modeHigh);
        i := i + 1;
      }
    }

    method Sum() returns (sum: bv16)
      requires buf.Length == 256 && size in {128, 256}
      ensures sum == Checksum(buf[..], size / 2 - 1)
    {
      hide Mixed, WordAt;
      sum := 0xAAAA;
      var i := 0;
      while i < size / 2 - 1
        invariant 0 <= i <= size / 2 - 1
        invariant sum == Checksum(buf[..], i)
      {
        sum := Mixed(sum, WordAt(buf[..], i));
        i := i + 1;
      }
    }

    /** The configuration that the image holds, or an error when the checksum is wrong; by then the
        common fields have changed already. */
    method Decode() returns (r: int)
      requires buf.Length == 256 && size in {128, 256} && Readable(buf[..], size)
      modifies this`config
      ensures r == if Accepted(buf[..], size) then 0 else -1
      ensures config == if r == 0 then Decoded(kind, old(config), buf[..], size)
                        else DecodedCommon(old(config), buf[..], size)
    {
      hide DecodedCommon, Readable, Checksum, WordAt, Decoded2232C, Decoded2232H, Decoded4232H, Decoded232H, WithGroups, WithCbus;
      ReadCommon();
      var sum := Sum();
      var stored := WordAt(buf[..], size / 2 - 1);
      if stored != sum {
        return -1;
      }
      ReadChip();
      r := 0;
    }

    method ReadChip()
      requires buf.Length == 256
      modifies this`config
      ensures var e := old(config).(channelAType := 0);
              config == match kind
                case BM => e.(chip := -1)
                case C2232 => Decoded2232C(e, buf[..])
                case H2232 => Decoded2232H(WithGroups(e, buf[..]), buf[..])
                case H4232 => Decoded4232H(WithGroups(e, buf[..]), buf[..])
                case H232 => WithCbus(Decoded232H(e, buf[..]), buf[..])
    {
      hide Decoded2232C, Decoded2232H, Decoded4232H, Decoded232H, WithGroups, WithCbus;
      config := config.(channelAType := 0);
      match kind {
        case BM => config := config.(chip := -1);
        case C2232 => Read2232C();
        case H2232 =>
          ReadGroups();
          Read2232H();
        case H4232 =>
          ReadGroups();
          Read4232H();
        case H232 =>
          Read232H();
          ReadCbus();
      }
    }

    method ReadCommon()
      requires buf.Length == 256 && size in {128, 256} && Readable(buf[..], size)
      modifies this`config
      ensures config == DecodedCommon(old(config), buf[..], size)
    {
      hide Number, Has, Characters, StringInside;
      config := config.(
        vendorId := Number(buf[0x02], buf[0x03]), productId := Number(buf[0x04], buf[0x05]),
        releaseNumber := Number(buf[0x06], buf[0x07]),
        selfPowered := Has(buf[0x08], 0x40), remoteWakeup := Has(buf[0x08], 0x20), maxPower := 2 * (buf[0x09] as nat));
      config := config.(
        inIsochronous := Has(buf[0x0A], 0x01), outIsochronous := Has(buf[0x0A], 0x02),
        suspendPullDowns := Has(buf[0x0A], 0x04), useSerial := Has(buf[0x0A], 0x08), useUsbVersion := Has(buf[0x0A], 0x10),
        usbVersion := Number(buf[0x0C], buf[0x0D]));
      var s := GetString(buf[0x0E], buf[0x0F]);
      config := config.(manufacturer := s);
      s := GetString(buf[0x10], buf[0x11]);
      config := config.(product := s);
      s := GetString(buf[0x12], buf[0x13]);
      config := config.(serial := s);
    }

    method GetString(offset: bv8, length: bv8) returns (s: seq<bv8>)
      requires buf.Length == 256 && size in {128, 256} && StringInside(size, offset, length)
      ensures s == Characters(buf[..], size, offset, length)
    {
      hide Wrap;
      var half := (length as nat) / 2;
      s := [];
      if half > 0 {
        var i := Wrap(offset as nat, size);
        var j := 0;
        while j < half - 1
          invariant 0 <= j <= half - 1
          invariant s == Characters(buf[..], size, offset, length)[..j]
        {
          s := s + [buf[2 * j + i + 2]];
          j := j + 1;
        }
      }
    }

    method Read2232C()
      requires buf.Length == 256
      modifies this`config
      ensures config == Decoded2232C(old(config), buf[..])
    {
      hide Has, BitsType;
      config := config.(channelAType := BitsType(buf[0x00] & 7), channelADriver := Has(buf[0x00], 0x08));
      config := config.(highCurrentA := Has(buf[0x00], 0x10), channelBType := (buf[0x01] & 7) as nat);
      config := config.(channelBDriver := Has(buf[0x01], 0x08), highCurrentB := Has(buf[0x01], 0x10));
      config := config.(chip := buf[0x14] as int);
    }

    method ReadGroups()
      requires buf.Length == 256
      modifies this`config
      ensures config == WithGroups(old(config), buf[..])
    {
      hide GroupOf, HighHalf;
      config := config.(group0 := GroupOf(buf[0x0C]), group1 := GroupOf(HighHalf(buf[0x0C])));
      config := config.(group2 := GroupOf(buf[0x0D]), group3 := GroupOf(HighHalf(buf[0x0D])));
    }

    method Read2232H()
      requires buf.Length == 256
      modifies this`config
      ensures config == Decoded2232H(old(config), buf[..])
    {
      hide Has, BitsType;
      config := config.(channelADriver := Has(buf[0x00], 0x08), channelBDriver := Has(buf[0x01], 0x08));
      config := config.(channelAType := BitsType(buf[0x00] & 7), channelBType := BitsType(buf[0x01] & 7));
      config := config.(suspendDbus7 := Has(buf[0x01], 0x80), chip := buf[0x18] as int);
    }

    method Read4232H()
      requires buf.Length == 256
      modifies this`config
      ensures config == Decoded4232H(old(config), buf[..])
    {
      hide Has, HighHalf;
      config := config.(channelADriver := Has(buf[0x00], 0x08), channelBDriver := Has(buf[0x01], 0x08));
      config := config.(channelCDriver := Has(HighHalf(buf[0x00]), 0x08), channelDDriver := Has(HighHalf(buf[0x01]), 0x08));
      config := config.(rs485A := Has(buf[0x0B], 0x10), rs485B := Has(buf[0x0B], 0x20));
      config := config.(rs485C := Has(buf[0x0B], 0x40), rs485D := Has(buf[0x0B], 0x80), chip := buf[0x18] as int);
    }

    method Read232H()
      requires buf.Length == 256
      modifies this`config
      ensures config == Decoded232H(old(config), buf[..])
    {
      hide Has, GroupOf;
      var c, b := config, buf[..];
      c := c.(channelAType := (b[0x00] & 15) as nat, channelADriver := Has(b[0x00], 0x10));
      c := c.(clockPolarity := Has(b[0x01], 0x01), dataOrder := Has(b[0x01], 0x02));
      c := c.(flowControl := Has(b[0x01], 0x04), powerSave := Has(b[0x01], 0x80));
      c := c.(group0 := GroupOf(b[0x0C]), group1 := GroupOf(b[0x0D]));
      config := c;
    }

    method ReadCbus()
      requires buf.Length == 256
      modifies this`config
      ensures config == WithCbus(old(config), buf[..])
    {
      hide LowHalf, HighHalf;
      var c, b := config, buf[..];
      c := c.(cbus0 := LowHalf(b[0x18]) as nat, cbus1 := HighHalf(b[0x18]) as nat);
      c := c.(cbus2 := LowHalf(b[0x19]) as nat, cbus3 := HighHalf(b[0x19]) as nat);
      c := c.(cbus4 := LowHalf(b[0x1A]) as nat, cbus5 := HighHalf(b[0x1A]) as nat);
      c := c.(cbus6 := LowHalf(b[0x1B]) as nat, cbus7 := HighHalf(b[0x1B]) as nat);
      c := c.(cbus8 := LowHalf(b[0x1C]) as nat, cbus9 := HighHalf(b[0x1C]) as nat, chip := b[0x1E] as int);
      config := c;
    }

    /** Built and then decoded: no error, and the configuration is recovered, but on the FT232BM the
        chip is forgotten, so that the next build fails. */
    method BuildAndDecode() returns (r: int)
      requires buf.Length == 256 && size in {-1, 128, 256} && config.chip != -1 && Room(kind, config) >= 0
      modifies this, buf
      ensures r == 0 && CommonBack(old(config), config) && ChipBack(kind, old(config), config)
      ensures config.chip == if kind == BM then -1 else old(config.chip) % 256
    {
      hide Image, CommonBack, Decoded, DecodedCommon, Accepted, Readable, Room;
      ghost var c := config;
      r := Build();
      RoundTrip(kind, c, c, size);
      r := Decode();
    }
  }

  lemma SealedIs(kind: Kind, c: Config, size: nat, b: seq<bv8>, sum: bv16)
    requires size in {128, 256} && |b| == 256 && sum == Checksum(Body(kind, c, size), size / 2 - 1)
    requires b == Body(kind, c, size)[size - 2 := LowOf(sum)][size - 1 := HighOf(sum)]
    ensures b == Image(kind, c, size)
  {
  }

  lemma EntryHead(s: seq<bv8>)
    ensures Entry(s)[0] == Low(2 * |s| + 2) && Entry(s)[1] == 3
  {
    hide Low;
  }

  lemma EntryPair(s: seq<bv8>, j: nat)
    requires j < |s|
    ensures Entry(s)[2 + 2 * j] == s[j] && Entry(s)[3 + 2 * j] == 0
  {
    hide Low;
    assert Wide(s)[2 * j] == s[j] && Wide(s)[2 * j + 1] == 0;
  }

  lemma BodyIs(kind: Kind, c: Config, size: nat, b: seq<bv8>)
    requires size in {128, 256} && |b| == 256 && Room(kind, c) >= 0
    requires forall k :: 0 <= k < First(kind, size) ==> b[k] == HeaderByte(kind, c, k)
    requires forall k :: First(kind, size) <= k < First(kind, size) + |Area(kind, c)| ==>
               k < 256 && b[k] == Area(kind, c)[k - First(kind, size)]
    requires forall k :: First(kind, size) + |Area(kind, c)| <= k < 256 ==> b[k] == 0
    ensures b == Body(kind, c, size)
  {
    hide HeaderByte, First, Area, Room;
  }

  lemma ChipHeaderBytes(kind: Kind, c: Config)
    ensures HeaderByte(kind, c, 0x00) == Byte00(kind, c) && HeaderByte(kind, c, 0x01) == Byte01(kind, c)
    ensures HeaderByte(kind, c, 0x0A) == Byte0A(kind, c) && HeaderByte(kind, c, 0x0B) == Byte0B(kind, c)
    ensures HeaderByte(kind, c, 0x0C) == Byte0C(kind, c) && HeaderByte(kind, c, 0x0D) == Byte0D(kind, c)
  {
    hide Byte00, Byte01, Byte0A, Byte0B, Byte0C, Byte0D;
  }

  lemma CommonHeaderBytes(kind: Kind, c: Config)
    ensures HeaderByte(kind, c, 0x02) == Low(c.vendorId) && HeaderByte(kind, c, 0x03) == High(c.vendorId)
    ensures HeaderByte(kind, c, 0x04) == Low(c.productId) && HeaderByte(kind, c, 0x05) == High(c.productId)
    ensures HeaderByte(kind, c, 0x06) == Low(c.releaseNumber) && HeaderByte(kind, c, 0x07) == High(c.releaseNumber)
    ensures HeaderByte(kind, c, 0x08) == With(With(0x80, 0x40, c.selfPowered), 0x20, c.remoteWakeup)
    ensures HeaderByte(kind, c, 0x09) == Low(c.maxPower / 2)
  {
    hide Low, High, With;
  }

  /** The offsets and lengths of the first two strings. */
  function NamesHeader(kind: Kind, c: Config): (b: seq<bv8>)
  {
    var m, p := Kept(c.manufacturer), Kept(c.product);
    [Low(Start(kind)), Low(2 * |m| + 2), Low(Start(kind) + |Entry(m)|), Low(2 * |p| + 2)]
  }

  function StringHeader(kind: Kind, c: Config): (b: seq<bv8>)
  {
    NamesHeader(kind, c) + [Low(SerialAt(kind, c)), Low(2 * |Kept(c.serial)| + 2)]
  }

  lemma StringHeaderBytes(kind: Kind, c: Config)
    ensures |StringHeader(kind, c)| == 6
    ensures forall k :: 0x0E <= k <= 0x13 ==> HeaderByte(kind, c, k) == StringHeader(kind, c)[k - 0x0E]
  {
    hide Low, High, Entry, Kept, Start, Pair, Cbus, Byte00, Byte01, Byte08, Byte0A, Byte0B, Byte0C, Byte0D;
  }

  /** Where the four parts of the string area go. */
  lemma Layout(kind: Kind, c: Config, size: nat)
    requires size in {128, 256} && Room(kind, c) >= 0
    ensures var m, p, s, t := Entry(Kept(c.manufacturer)), Entry(Kept(c.product)), Entry(Kept(c.serial)), Tail(kind, c);
            && Area(kind, c) == (m + p) + (s + t)
            && |t| == (if kind == BM then 0 else 3)
            && Start(kind) + |m| + |p| + |s| + |t| <= 250
            && First(kind, size) + |m| + |p| + |s| + |t| <= size - 6
    ensures First(kind, size) >= 0x14
  {
    hide Kept, Entry, Room, First, Start;
    AreaFits(kind, c, size);
  }

  ghost predicate Placed(b: seq<bv8>, at: nat, s: seq<bv8>)
  {
    at + |s| <= |b| && b[at..at + |s|] == s
  }

  /** The two differ in `m` bytes from i and `n` bytes from j at most. */
  ghost predicate Only(b: seq<bv8>, c: seq<bv8>, i: nat, m: nat, j: nat, n: nat)
  {
    |b| == |c| && forall k :: 0 <= k < |b| && !(i <= k < i + m) && !(j <= k < j + n) ==> b[k] == c[k]
  }

  lemma Joined(b: seq<bv8>, at: nat, s: seq<bv8>, t: seq<bv8>)
    requires Placed(b, at, s) && Placed(b, at + |s|, t)
    ensures Placed(b, at, s + t)
  {
  }

  lemma Untouched(b: seq<bv8>, c: seq<bv8>, i: nat, m: nat, j: nat, n: nat, at: nat, s: seq<bv8>)
    requires Only(b, c, i, m, j, n) && Placed(b, at, s)
    requires (at + |s| <= i || i + m <= at) && (at + |s| <= j || j + n <= at)
    ensures Placed(c, at, s)
  {
    assert c[at..at + |s|] == b[at..at + |s|];
  }

  lemma Together(a: seq<bv8>, b: seq<bv8>, c: seq<bv8>, i: nat, m: nat, m2: nat, j: nat, n: nat, n2: nat)
    requires Only(a, b, i, m, j, n) && Only(b, c, i + m, m2, j + n, n2)
    ensures Only(a, c, i, m + m2, j, n + n2)
  {
  }

  lemma NothingPlaced(b: seq<bv8>, i: nat, j: nat, t: seq<bv8>)
    requires i <= |b| && j <= |b| && t == []
    ensures Placed(b, i, []) && Placed(b, j, t) && Only(b, b, i, 0, j, 0)
  {
  }

  lemma TailPlaced(b: seq<bv8>, c: seq<bv8>, at: nat, last: bv8)
    requires 0x14 <= |b| && at + 3 <= |b| && c == b[at := 2][at + 1 := 3][at + 2 := last]
    ensures Placed(c, 0x14, []) && Placed(c, at, [2, 3, last]) && Only(b, c, 0x14, 0, at, 3)
  {
  }

  /** Two pieces of the header and of the strings, put in one after the other. */
  lemma BothPlaced(a: seq<bv8>, b: seq<bv8>, c: seq<bv8>, i: nat, head: seq<bv8>, next: seq<bv8>,
                   j: nat, s: seq<bv8>, t: seq<bv8>)
    requires Placed(b, i, head) && Placed(b, j, s) && Only(a, b, i, |head|, j, |s|)
    requires Placed(c, i + |head|, next) && Placed(c, j + |s|, t) && Only(b, c, i + |head|, |next|, j + |s|, |t|)
    requires i + |head| + |next| <= j
    ensures Placed(c, i, head + next) && Placed(c, j, s + t) && Only(a, c, i, |head + next|, j, |s + t|)
  {
    hide Placed, Only;
    Untouched(b, c, i + |head|, |next|, j + |s|, |t|, i, head);
    Untouched(b, c, i + |head|, |next|, j + |s|, |t|, j, s);
    Joined(c, i, head, next);
    Joined(c, j, s, t);
    Together(a, b, c, i, |head|, |next|, j, |s|, |t|);
  }
}
