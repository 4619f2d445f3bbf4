/**
 The cursor machine of microtar: writing and reading an archive through a file, one header
 and one piece of data at a time.
 */
module Tar {
  import opened TarHeader

  /** Unsigned 32-bit arithmetic wraps around. */
  function U(n: int): (r: Unsigned)
    ensures 0 <= n < UNSIGNED ==> r == n
  {
    n % UNSIGNED
  }

  lemma UAdd(a: nat, b: nat)
    ensures U(U(a) + b) == U(a + b)
  {
  }

  /** The next multiple of 512, for a record or the data behind it. */
  function RoundUp(n: nat): (r: nat)
    ensures n <= r < n + 512 && r % 512 == 0
  {
    n + (512 - n % 512) % 512
  }

  /** The file after `b` has been written at `at`. */
  function Overwrite(d: seq<Byte>, at: nat, b: seq<Byte>): (r: seq<Byte>)
    requires at <= |d|
  {
    d[..at] + b + if at + |b| <= |d| then d[at + |b|..] else []
  }

  /** The header at `p`, as the reader finds it. */
  function HeaderAt(d: seq<Byte>, p: nat, prior: Header): (r: Result<Header>)
  {
    if p + HEADER_SIZE <= |d| then Parse(d[p..p + HEADER_SIZE], prior) else Err(ReadFail)
  }

  /** The cursor of a reader. */
  datatype Cursor = Cursor(pos: Unsigned, remaining: Unsigned, lastHeader: Unsigned)

  function Begin(d: seq<Byte>, c: Cursor, prior: Header): (r: Result<Cursor>)
  {
    if c.remaining != 0 then Ok(c)
    else
      match HeaderAt(d, c.pos, prior)
      case Ok(h) => Ok(Cursor(U(c.pos + HEADER_SIZE), h.size, c.pos))
      case Err(e) => Err(e)
  }

  /** The next `size` bytes of data, and where the cursor goes: on, or back to the header when
      the archive believes that nothing is left. */
  function Consume(d: seq<Byte>, c: Cursor, size: Unsigned): (r: Result<(seq<Byte>, Cursor)>)
  {
    if size == 0 then Ok(([], Advance(c, 0)))
    else if |d| < c.pos + size then Err(ReadFail)
    else Ok((d[c.pos..c.pos + size], Advance(c, size)))
  }

  function Advance(c: Cursor, size: Unsigned): (r: Cursor)
  {
    var left := U(c.remaining - size);
    Cursor(if left == 0 then c.lastHeader else U(c.pos + size), left, c.lastHeader)
  }

  class Tar {
    // The file and the position in it that fread, fwrite and fseek keep.
    var data: seq<Byte>
    var at: nat
    // The fields of mtar_t, all unsigned.
    var pos: Unsigned
    var remaining: Unsigned
    var lastHeader: Unsigned

    constructor (data: seq<Byte>)
      ensures this.data == data && at == pos == remaining == lastHeader == 0
    {
      this.data, at, pos, remaining, lastHeader := data, 0, 0, 0, 0;
    }

    /** The file position is where the archive thinks it is. */
    ghost predicate Synced()
      reads this
    {
      at == pos && |data| < UNSIGNED
    }

    method TRead(size: Unsigned) returns (ok: bool, bytes: seq<Byte>)
      modifies this`at, this`pos
      ensures pos == U(old(pos) + size)
      ensures ok <==> size == 0 || old(at) + size <= |data|
      ensures ok && size > 0 ==> bytes == data[old(at)..old(at) + size] && at == old(at) + size
      ensures ok && size == 0 ==> bytes == [] && at == old(at)
      ensures old(at) <= at
    {
      var left := if at <= |data| then |data| - at else 0;
      var n := if size <= left then size else left;
      bytes := if n == 0 then [] else data[at..at + n];
      at := at + n;
      ok := n == size;
      pos := U(pos + size);
    }

    method TWrite(bytes: seq<Byte>)
      requires at <= |data|
      modifies this`data, this`at, this`pos
      ensures data == Overwrite(old(data), old(at), bytes)
      ensures at == old(at) + |bytes| <= |data| && pos == U(old(pos) + |bytes|)
    {
      data := Overwrite(data, at, bytes);
      at := at + |bytes|;
      pos := U(pos + |bytes|);
    }

    method WriteNullBytes(n: nat)
      requires at <= |data|
      modifies this`data, this`at, this`pos
      ensures data == Overwrite(old(data), old(at), Repeat(0, n))
      ensures at == old(at) + n <= |data| && pos == U(old(pos) + n)
    {
      assert Overwrite(data, at, Repeat(0, 0)) == data;
      for i := 0 to n
        invariant at == old(at) + i <= |data| && pos == U(old(pos) + i)
        invariant data == Overwrite(old(data), old(at), Repeat(0, i))
      {
        hide Overwrite;
        OverwriteTwice(old(data), old(at), Repeat(0, i), [0]);
        assert Repeat(0, i) + [0] == Repeat(0, i + 1);
        TWrite([0]);
      }
    }

    method Seek(to: Unsigned)
      modifies this`at, this`pos
      ensures at == pos == to
    {
      at := to;
      pos := to;
    }

    method Rewind()
      modifies this`at, this`pos, this`remaining, this`lastHeader
      ensures at == pos == remaining == lastHeader == 0
    {
      remaining := 0;
      lastHeader := 0;
      Seek(0);
    }

    method ToArray(bytes: seq<Byte>) returns (a: array<Byte>)
      ensures fresh(a) && a[..] == bytes
    {
      a := new Byte[|bytes|](i requires 0 <= i < |bytes| => bytes[i]);
    }

    method ReadHeader(prior: Header) returns (r: Result<Header>)
      requires Synced()
      modifies this`at, this`pos, this`lastHeader
      ensures lastHeader == old(pos) && r == HeaderAt(data, old(pos), prior)
      ensures r != Err(ReadFail) ==> Synced() && pos == old(pos)
    {
      lastHeader := pos;
      var ok, bytes := TRead(HEADER_SIZE);
      if !ok {
        return Err(ReadFail);
      }
      Seek(lastHeader);
      var rh := ToArray(bytes);
      r := RawToHeader(rh, prior);
    }

    method Next(prior: Header) returns (r: Result<Header>)
      requires Synced()
      modifies this`at, this`pos, this`lastHeader
      ensures lastHeader == old(pos) && r == HeaderAt(data, old(pos), prior)
      ensures r.Ok? ==> Synced() && pos == U(old(pos) + RoundUp(r.value.size) + HEADER_SIZE)
    {
      hide HeaderAt, RoundUp, U;
      r := ReadHeader(prior);
      if r.Ok? {
        var n := RoundUp(r.value.size) + HEADER_SIZE;
        Seek(U(pos + n));
      }
    }

    ghost function Cur(): Cursor
      reads this
    {
      Cursor(pos, remaining, lastHeader)
    }

    /** The first step of reading data: past the header, unless a read is in progress. */
    method BeginData(prior: Header) returns (err: Result<()>)
      requires Synced()
      modifies this`at, this`pos, this`lastHeader, this`remaining
      ensures match Begin(data, old(Cur()), prior)
              case Ok(c) => err == Ok(()) && Synced() && Cur() == c
              case Err(e) => err == Err(e)
    {
      if remaining == 0 {
        var r := ReadHeader(prior);
        if r.Err? {
          return Err(r.error);
        }
        Seek(U(pos + HEADER_SIZE));
        remaining := r.value.size;
      }
      err := Ok(());
    }

    method ConsumeData(size: Unsigned) returns (err: Result<()>, bytes: seq<Byte>)
      requires Synced()
      modifies this`at, this`pos, this`remaining
      ensures match Consume(data, old(Cur()), size)
              case Err(e) => err == Err(e)
              case Ok(got) => err == Ok(()) && bytes == got.0 && Cur() == got.1 && Synced()
    {
      var ok;
      ok, bytes := TRead(size);
      if !ok {
        return Err(ReadFail), bytes;
      }
      remaining := U(remaining - size);
      if remaining == 0 {
        Seek(lastHeader);
      }
      err := Ok(());
    }

    method ReadData(size: Unsigned, prior: Header) returns (err: Result<()>, bytes: seq<Byte>)
      requires Synced()
      modifies this`at, this`pos, this`lastHeader, this`remaining
      ensures match Begin(data, old(Cur()), prior)
              case Err(e) => err == Err(e)
              case Ok(c) =>
                match Consume(data, c, size)
                case Err(e) => err == Err(e)
                case Ok(got) => err == Ok(()) && bytes == got.0 && Cur() == got.1 && Synced()
    {
      hide Begin, Consume;
      bytes := [];
      err := BeginData(prior);
      if err.Err? {
        return;
      }
      err, bytes := ConsumeData(size);
    }

    method WriteHeader(h: Header)
      requires Fits(h) && at <= |data|
      modifies this`data, this`at, this`pos, this`remaining
      ensures data == Overwrite(old(data), old(at), Raw(h))
      ensures at == old(at) + HEADER_SIZE <= |data| && pos == U(old(pos) + HEADER_SIZE) && remaining == h.size
    {
      var rh := HeaderToRaw(h);
      remaining := h.size;
      TWrite(rh[..]);
    }

    method WriteData(bytes: seq<Byte>)
      requires at <= |data|
      modifies this`data, this`at, this`pos, this`remaining
      ensures remaining == U(old(remaining) - |bytes|)
      ensures var end := U(old(pos) + |bytes|);
              var all := bytes + if remaining == 0 then Repeat(0, RoundUp(end) - end) else [];
              && data == Overwrite(old(data), old(at), all)
              && at == old(at) + |all| <= |data| && pos == U(old(pos) + |all|)
    {
      hide *;
      ghost var d, p := data, at;
      TWrite(bytes);
      remaining := U(remaining - |bytes|);
      if remaining == 0 {
        var n := RoundUp(pos) - pos;
        OverwriteTwice(d, p, bytes, Repeat(0, n));
        UAdd(old(pos) + |bytes|, n);
        WriteNullBytes(n);
      } else {
        assert bytes + [] == bytes;
      }
    }

    method Finalize()
      requires at <= |data|
      modifies this`data, this`at, this`pos
      ensures data == Overwrite(old(data), old(at), Repeat(0, 2 * HEADER_SIZE))
      ensures at == old(at) + 2 * HEADER_SIZE <= |data| && pos == U(old(pos) + 2 * HEADER_SIZE)
    {
      WriteNullBytes(2 * HEADER_SIZE);
    }
  }

  lemma OverwriteTwice(d: seq<Byte>, at: nat, a: seq<Byte>, b: seq<Byte>)
    requires at <= |d|
    ensures at + |a| <= |Overwrite(d, at, a)|
    ensures Overwrite(Overwrite(d, at, a), at + |a|, b) == Overwrite(d, at, a + b)
  {
    var m := Overwrite(d, at, a);
    assert m[..at + |a|] == d[..at] + a;
    assert at + |a| + |b| <= |d| ==> m[at + |a| + |b|..] == d[at + |a| + |b|..];
  }
}
