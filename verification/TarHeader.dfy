/**
 The tar header of microtar: a record of 512 bytes with numbers in octal and a checksum.
 */
module TarHeader {

  type Byte = i: int | 0 <= i < 256

  const HEADER_SIZE := 512
  const OWNER_AT := 108
  const MODE_AT := 100
  const SIZE_AT := 124
  const MTIME_AT := 136
  const CHECKSUM_AT := 148
  const TYPE_AT := 156
  const LINKNAME_AT := 157
  const MTAR_TREG: Byte := 48
  const UNSIGNED := 0x1_0000_0000

  type Unsigned = i: int | 0 <= i < UNSIGNED

  datatype Header = Header(mode: Unsigned, owner: Unsigned, size: Unsigned, mtime: Unsigned, kind: Unsigned, name: seq<Byte>, linkname: seq<Byte>)

  datatype Error = BadChecksum | NullRecord | ReadFail | NotFound
  datatype Result<+T> = Ok(value: T) | Err(error: Error)

  // ---------- numbers in octal ----------

  /** What "%o" prints. */
  function Octal(n: nat): (s: seq<Byte>)
    ensures 0 < |s| && AllDigits(s)
  {
    if n < 8 then [48 + n] else Octal(n / 8) + [48 + n % 8]
  }

  predicate IsDigit(b: Byte) {
    48 <= b < 56
  }

  predicate AllDigits(s: seq<Byte>) {
    forall i :: 0 <= i < |s| ==> IsDigit(s[i])
  }

  /** What "%06o" prints. */
  function Octal6(n: nat): (s: seq<Byte>)
    ensures 6 <= |s| && AllDigits(s)
  {
    var d := Octal(n);
    Repeat(48, if |d| < 6 then 6 - |d| else 0) + d
  }

  function Repeat(b: Byte, n: nat): (s: seq<Byte>)
    ensures |s| == n && forall i :: 0 <= i < n ==> s[i] == b
  {
    seq(n, _ => b)
  }

  function Pow8(k: nat): (r: nat)
    ensures 0 < r
  {
    if k == 0 then 1 else 8 * Pow8(k - 1)
  }

  lemma {:induction false} OctalLength(n: nat, k: nat)
    requires 0 < k && n < Pow8(k)
    ensures |Octal(n)| <= k
    decreases k
  {
    if n >= 8 {
      assert k != 1 by { assert Pow8(1) == 8 * Pow8(0); }
      OctalLength(n / 8, k - 1);
    }
  }

  /** The number that a run of octal digits at the front of `s` continues `acc` to. */
  function ScanFrom(acc: nat, s: seq<Byte>): (n: nat)
    decreases |s|
  {
    if s != [] && IsDigit(s[0]) then ScanFrom(8 * acc + (s[0] - 48), s[1..]) else acc
  }

  predicate IsSpace(b: Byte) {
    b == 32 || 9 <= b <= 13
  }

  /** What sscanf with "%o" stores; nothing when it finds no number. */
  function Scan(s: seq<Byte>): (r: seq<Unsigned>)
  {
    if s == [] then []
    else if IsSpace(s[0]) then Scan(s[1..])
    else if IsDigit(s[0]) then [ScanFrom(0, s) % UNSIGNED]
    else if (s[0] == 43 || s[0] == 45) && |s| > 1 && IsDigit(s[1]) then
      var n := ScanFrom(0, s[1..]) % UNSIGNED;
      [if s[0] == 45 then (UNSIGNED - n) % UNSIGNED else n]
    else []
  }

  lemma {:induction false} ScanAppend(acc: nat, a: seq<Byte>, b: seq<Byte>)
    requires AllDigits(a)
    ensures ScanFrom(acc, a + b) == ScanFrom(ScanFrom(acc, a), b)
    decreases |a|
  {
    if a == [] {
      assert a + b == b;
    } else {
      assert (a + b)[1..] == a[1..] + b;
      ScanAppend(8 * acc + (a[0] - 48), a[1..], b);
    }
  }

  lemma {:induction false} ScanOctal(n: nat)
    ensures ScanFrom(0, Octal(n)) == n
  {
    if n >= 8 {
      ScanOctal(n / 8);
      ScanAppend(0, Octal(n / 8), [48 + n % 8]);
      var d: seq<Byte> := [48 + n % 8];
      assert ScanFrom(n / 8, d) == ScanFrom(8 * (n / 8) + n % 8, d[1..]);
    } else {
      var d: seq<Byte> := [48 + n];
      assert ScanFrom(0, d) == ScanFrom(n, d[1..]);
    }
  }

  lemma {:induction false} ScanZeros(k: nat, s: seq<Byte>)
    ensures ScanFrom(0, Repeat(48, k) + s) == ScanFrom(0, s)
  {
    var z := Repeat(48, k) + s;
    if k == 0 {
      assert z == s;
    } else {
      assert z[1..] == Repeat(48, k - 1) + s;
      ScanZeros(k - 1, s);
    }
  }

  /** A printed number is scanned back, whatever follows its terminator. */
  lemma ScanField(s: seq<Byte>, d: seq<Byte>, n: nat)
    requires AllDigits(d) && 0 < |d| < |s| && s[..|d|] == d && !IsDigit(s[|d|])
    requires ScanFrom(0, d) == n < UNSIGNED
    ensures Scan(s) == [n]
  {
    var rest := s[|d|..];
    assert ScanFrom(n, rest) == n;
    assert s[0] == d[0] && IsDigit(d[0]);
    hide ScanFrom, AllDigits;
    assert s == d + rest;
    ScanAppend(0, d, rest);
  }

  // ---------- the record ----------

  /** The header fits its fields: numbers leave room for a terminator and strings hold none. */
  ghost predicate Fits(h: Header) {
    && h.mode < Pow8(7) && h.owner < Pow8(7)
    && h.kind < 128
    && |h.name| < 100 && |h.linkname| < 100
    && 0 !in h.name && 0 !in h.linkname
  }

  /** Byte `i` of a string field that is filled up with zeros. */
  function At(s: seq<Byte>, i: nat): (b: Byte)
  {
    if i < |s| then s[i] else 0
  }

  function KindByte(h: Header): (b: Byte)
  {
    if h.kind == 0 then MTAR_TREG else h.kind % 256
  }

  /** Byte `i` of the record before the checksum is filled in. */
  function BodyAt(h: Header, i: nat): (b: Byte)
  {
    if i < MODE_AT then At(h.name, i)
    else if i < OWNER_AT then At(Octal(h.mode), i - MODE_AT)
    else if i < OWNER_AT + 8 then At(Octal(h.owner), i - OWNER_AT)
    else if i < SIZE_AT then 0
    else if i < MTIME_AT then At(Octal(h.size), i - SIZE_AT)
    else if i < CHECKSUM_AT then At(Octal(h.mtime), i - MTIME_AT)
    else if i < TYPE_AT then 0
    else if i == TYPE_AT then KindByte(h)
    else At(h.linkname, i - LINKNAME_AT)
  }

  function Sum(s: seq<Byte>): (n: nat)
    ensures n <= 255 * |s|
  {
    if s == [] then 0 else Sum(s[..|s| - 1]) + s[|s| - 1]
  }

  function Checksum(rh: seq<Byte>): (n: nat)
    requires |rh| == HEADER_SIZE
    ensures n < Pow8(6)
  {
    assert Pow8(6) == 262144;
    256 + Sum(rh[..CHECKSUM_AT]) + Sum(rh[TYPE_AT..])
  }

  function Body(h: Header): (rh: seq<Byte>)
    ensures |rh| == HEADER_SIZE
  {
    seq(HEADER_SIZE, i requires 0 <= i => BodyAt(h, i))
  }

  /** The record that the writer puts in front of a file. */
  function Raw(h: Header): (rh: seq<Byte>)
    ensures |rh| == HEADER_SIZE
  {
    var body := Body(h);
    var sum := Octal6(Checksum(body));
    OctalLength(Checksum(body), 6);
    body[..CHECKSUM_AT] + sum + [0, 32] + body[TYPE_AT..]
  }

  /** A string as strcpy finds it: everything before the first zero. */
  function CString(s: seq<Byte>): (r: seq<Byte>)
    ensures |r| <= |s| && r == s[..|r|] && 0 !in r
  {
    if s == [] || s[0] == 0 then [] else [s[0]] + CString(s[1..])
  }

  /** The number of a field, or `prior` when there is none. */
  function Number(s: seq<Byte>, prior: Unsigned): (n: Unsigned)
  {
    var r := Scan(s);
    if r == [] then prior else r[0]
  }

  /** What the reader makes of a record. Numbers that are missing keep the value in `h`. */
  function Parse(rh: seq<Byte>, h: Header): (r: Result<Header>)
    requires |rh| == HEADER_SIZE
  {
    if rh[CHECKSUM_AT] == 0 then Err(NullRecord)
    else if Scan(rh[CHECKSUM_AT..]) != [Checksum(rh)] then Err(BadChecksum)
    else
      Ok(Header(Number(rh[MODE_AT..], h.mode), Number(rh[OWNER_AT..], h.owner), Number(rh[SIZE_AT..], h.size),
                Number(rh[MTIME_AT..], h.mtime), rh[TYPE_AT], CString(rh), CString(rh[LINKNAME_AT..])))
  }

  lemma {:induction false} CStringOf(s: seq<Byte>, name: seq<Byte>)
    requires |name| < |s| && s[..|name|] == name && s[|name|] == 0 && 0 !in name
    ensures CString(s) == name
    decreases |name|
  {
    if name != [] {
      assert s[0] == name[0];
      assert s[1..][..|name| - 1] == name[1..];
      CStringOf(s[1..], name[1..]);
    }
  }

  /** The header as the reader will see it: a missing type has become a regular file. */
  function Stored(h: Header): (r: Header)
  {
    h.(kind := KindByte(h))
  }

  lemma RawAt(h: Header, i: nat)
    requires i < HEADER_SIZE && !(CHECKSUM_AT <= i < TYPE_AT)
    ensures Raw(h)[i] == BodyAt(h, i)
  {
    OctalLength(Checksum(Body(h)), 6);
  }

  /** A field at `at` that holds `d` is terminated. */
  lemma FieldBytes(h: Header, at: nat, d: seq<Byte>, room: nat)
    requires at + room <= CHECKSUM_AT && |d| < room
    requires forall i :: 0 <= i < room ==> BodyAt(h, at + i) == At(d, i)
    ensures var s := Raw(h)[at..];
            |d| < |s| && s[..|d|] == d && s[|d|] == 0
  {
    var s := Raw(h)[at..];
    forall i | 0 <= i <= |d|
      ensures s[i] == At(d, i)
    {
      RawAt(h, at + i);
    }
  }

  /** A numeric field is scanned back. */
  lemma FieldOf(h: Header, at: nat, n: Unsigned, room: nat)
    requires at + room <= CHECKSUM_AT && |Octal(n)| < room
    requires forall i :: 0 <= i < room ==> BodyAt(h, at + i) == At(Octal(n), i)
    ensures Scan(Raw(h)[at..]) == [n]
  {
    FieldBytes(h, at, Octal(n), room);
    ScanOctal(n);
    ScanField(Raw(h)[at..], Octal(n), n);
  }

  lemma ChecksumOf(h: Header)
    ensures Checksum(Raw(h)) == Checksum(Body(h))
    ensures Scan(Raw(h)[CHECKSUM_AT..]) == [Checksum(Raw(h))]
  {
    var rh, body := Raw(h), Body(h);
    var n := Checksum(body);
    OctalLength(n, 6);
    assert rh[..CHECKSUM_AT] == body[..CHECKSUM_AT];
    assert rh[TYPE_AT..] == body[TYPE_AT..];
    ScanOctal(n);
    ScanZeros(6 - |Octal(n)|, Octal(n));
    assert rh[CHECKSUM_AT..][..6] == Octal6(n);
    ScanField(rh[CHECKSUM_AT..], Octal6(n), n);
  }

  /** The header round trip: the reader gets back every field that the writer stored. */
  lemma HeaderRoundTrip(h: Header, prior: Header)
    requires Fits(h)
    ensures Parse(Raw(h), prior) == Ok(Stored(h))
    ensures Raw(h)[CHECKSUM_AT] != 0
  {
    hide Raw, Scan, Checksum, CString, Fits;
    ChecksumOf(h);
    NumbersOf(h);
    NamesOf(h);
  }

  lemma NamesOf(h: Header)
    requires Fits(h)
    ensures CString(Raw(h)) == h.name && CString(Raw(h)[LINKNAME_AT..]) == h.linkname
    ensures Raw(h)[TYPE_AT] == KindByte(h) && Raw(h)[CHECKSUM_AT] != 0
  {
    hide Raw, Octal, CString;
    var rh := Raw(h);
    forall i | 0 <= i <= |h.name|
      ensures rh[i] == At(h.name, i)
    {
      RawAt(h, i);
    }
    CStringOf(rh, h.name);
    forall i | 0 <= i <= |h.linkname|
      ensures rh[LINKNAME_AT..][i] == At(h.linkname, i)
    {
      RawAt(h, LINKNAME_AT + i);
    }
    CStringOf(rh[LINKNAME_AT..], h.linkname);
    RawAt(h, TYPE_AT);
    ChecksumNotNull(h);
  }

  lemma ChecksumNotNull(h: Header)
    ensures Raw(h)[CHECKSUM_AT] != 0
  {
    hide Body;
    var sum := Octal6(Checksum(Body(h)));
    OctalLength(Checksum(Body(h)), 6);
    assert Raw(h)[CHECKSUM_AT] == sum[0] && IsDigit(sum[0]);
  }

  lemma NumbersOf(h: Header)
    requires Fits(h)
    ensures Scan(Raw(h)[MODE_AT..]) == [h.mode] && Scan(Raw(h)[OWNER_AT..]) == [h.owner]
    ensures Scan(Raw(h)[SIZE_AT..]) == [h.size] && Scan(Raw(h)[MTIME_AT..]) == [h.mtime]
  {
    assert Pow8(11) == 8589934592 && Pow8(7) < UNSIGNED;
    OctalRoom(h);
    FieldOf(h, MODE_AT, h.mode, 8);
    FieldOf(h, OWNER_AT, h.owner, 8);
    FieldOf(h, SIZE_AT, h.size, 12);
    FieldOf(h, MTIME_AT, h.mtime, 12);
  }

  // ---------- the code ----------

  /** Writes `s` at `off`, as sprintf and strcpy do on a cleared record. */
  method Put(rh: array<Byte>, off: nat, s: seq<Byte>)
    requires off + |s| <= rh.Length
    modifies rh
    ensures forall i :: 0 <= i < rh.Length ==> rh[i] == if off <= i < off + |s| then s[i - off] else old(rh[i])
  {
    forall i | 0 <= i < |s| {
      rh[off + i] := s[i];
    }
  }

  method ComputeChecksum(rh: array<Byte>) returns (res: nat)
    requires rh.Length == HEADER_SIZE
    ensures res == Checksum(rh[..])
  {
    res := 256;
    for i := 0 to CHECKSUM_AT
      invariant res == 256 + Sum(rh[..i])
    {
      assert rh[..i + 1][..i] == rh[..i];
      res := res + rh[i];
    }
    assert rh[..][..CHECKSUM_AT] == rh[..CHECKSUM_AT];
    for i := TYPE_AT to rh.Length
      invariant res == 256 + Sum(rh[..CHECKSUM_AT]) + Sum(rh[TYPE_AT..i])
    {
      assert rh[TYPE_AT..i + 1][..i - TYPE_AT] == rh[TYPE_AT..i];
      res := res + rh[i];
    }
    assert rh[TYPE_AT..rh.Length] == rh[..][TYPE_AT..];
  }

  method HeaderToRaw(h: Header) returns (rh: array<Byte>)
    requires Fits(h)
    ensures fresh(rh) && rh[..] == Raw(h)
  {
    hide Octal, Sum, Fits, Body, Checksum;
    rh := new Byte[HEADER_SIZE](_ => 0);
    WriteBody(h, rh);
    var sum := ComputeChecksum(rh);
    OctalLength(sum, 6);
    Seal(h, rh, sum);
  }

  method Seal(h: Header, rh: array<Byte>, sum: nat)
    requires rh.Length == HEADER_SIZE && rh[..] == Body(h) && sum == Checksum(Body(h)) && |Octal6(sum)| == 6
    modifies rh
    ensures rh[..] == Raw(h)
  {
    hide Octal, Octal6, Body, Checksum;
    Put(rh, CHECKSUM_AT, Octal6(sum) + [0]);
    rh[CHECKSUM_AT + 7] := 32;
    assert rh[..] == Raw(h);
  }

  /** The fields, in a cleared record. */
  method WriteBody(h: Header, rh: array<Byte>)
    requires Fits(h) && rh.Length == HEADER_SIZE && forall i :: 0 <= i < rh.Length ==> rh[i] == 0
    modifies rh
    ensures rh[..] == Body(h)
  {
    hide Octal;
    OctalRoom(h);
    Put(rh, MODE_AT, Octal(h.mode));
    Put(rh, OWNER_AT, Octal(h.owner));
    Put(rh, SIZE_AT, Octal(h.size));
    Put(rh, MTIME_AT, Octal(h.mtime));
    rh[TYPE_AT] := if h.kind != 0 then h.kind % 256 else MTAR_TREG;
    Put(rh, 0, h.name);
    Put(rh, LINKNAME_AT, h.linkname);
    assert rh[..] == Body(h);
  }

  lemma OctalRoom(h: Header)
    requires Fits(h)
    ensures |Octal(h.mode)| < 8 && |Octal(h.owner)| < 8 && |Octal(h.size)| < 12 && |Octal(h.mtime)| < 12
  {
    assert Pow8(7) == 2097152 && Pow8(11) == 8589934592;
    OctalLength(h.mode, 7);
    OctalLength(h.owner, 7);
    OctalLength(h.size, 11);
    OctalLength(h.mtime, 11);
  }

  method RawToHeader(rh: array<Byte>, prior: Header) returns (r: Result<Header>)
    requires rh.Length == HEADER_SIZE
    ensures r == Parse(rh[..], prior)
  {
    if rh[CHECKSUM_AT] == 0 {
      return Err(NullRecord);
    }
    var sum := ComputeChecksum(rh);
    assert rh[..][CHECKSUM_AT..] == rh[CHECKSUM_AT..] && rh[..][MODE_AT..] == rh[MODE_AT..];
    assert rh[..][OWNER_AT..] == rh[OWNER_AT..] && rh[..][SIZE_AT..] == rh[SIZE_AT..];
    assert rh[..][MTIME_AT..] == rh[MTIME_AT..] && rh[..][LINKNAME_AT..] == rh[LINKNAME_AT..];
    if Scan(rh[CHECKSUM_AT..]) != [sum] {
      return Err(BadChecksum);
    }
    r := Ok(Header(Number(rh[MODE_AT..], prior.mode), Number(rh[OWNER_AT..], prior.owner),
                   Number(rh[SIZE_AT..], prior.size), Number(rh[MTIME_AT..], prior.mtime), rh[TYPE_AT],
                   CString(rh[..]), CString(rh[LINKNAME_AT..])));
  }
}
