/**
 A buffer of bytes with a position and a limit. Copies of a buffer share its memory: here they are
 two objects with the same array.
 */
module ByteBuffers {
  import opened Bits
  import opened Bytes
  import opened Seqs

  // ---------- rotation, on values ----------

  function TurnedLeft(s: seq<bv8>, k: nat): (r: seq<bv8>)
    requires k <= |s|
    ensures |r| == |s|
  {
    s[k..] + s[..k]
  }

  function TurnedRight(s: seq<bv8>, k: nat): (r: seq<bv8>)
    requires k <= |s|
    ensures |r| == |s|
  {
    s[|s| - k..] + s[..|s| - k]
  }

  /** The count that is used: only one larger than the buffer is reduced. */
  function Reduced(count: nat, capacity: nat): (k: nat)
    requires capacity > 0
    ensures k <= capacity && k % capacity == count % capacity
  {
    if count > capacity then count % capacity else count
  }

  lemma TurnsUndone(s: seq<bv8>, k: nat)
    requires k <= |s|
    ensures TurnedRight(TurnedLeft(s, k), k) == s && TurnedLeft(TurnedRight(s, k), k) == s
    ensures multiset(TurnedLeft(s, k)) == multiset(s) && multiset(TurnedRight(s, k)) == multiset(s)
  {
    assert s[k..] + s[..k] == TurnedLeft(s, k);
    assert s == s[..k] + s[k..];
    assert s == s[..|s| - k] + s[|s| - k..];
  }

  lemma TurnedAt(s: seq<bv8>, k: nat, j: nat)
    requires k <= |s| && j < |s|
    ensures TurnedLeft(s, k)[j] == if j < |s| - k then s[j + k] else s[j - (|s| - k)]
    ensures TurnedRight(s, k)[j] == if j < k then s[j + (|s| - k)] else s[j - k]
  {
  }

  lemma LowBits(value: Word, size: nat, i: nat)
    requires |value| == 64 && i < size <= 8
    ensures var from := 64 - 8 * (size - i); value[64 - 8 * size..][8 * i..8 * i + 8] == value[from..from + 8]
  {
    SliceSlice(value, 64 - 8 * size, 64, 8 * i, 8 * i + 8);
    assert value[64 - 8 * size..] == value[64 - 8 * size..64];
  }

  /** One more byte behind those that were put in at `at`. */
  lemma PutOne(was: seq<bv8>, at: nat, put: seq<bv8>, b: bv8)
    requires at + |put| < |was|
    ensures (was[..at] + put + was[at + |put|..])[at + |put| := b] == was[..at] + (put + [b]) + was[at + |put| + 1..]
  {
  }

  class ByteBuffer {
    const data: array<bv8>
    var position: nat
    var limit: nat

    ghost predicate Valid()
      reads this
    {
      position <= data.Length && limit <= data.Length
    }

    /** What is still to be read. */
    ghost function Rest(): (s: seq<bv8>)
      requires Valid() && position <= limit
      reads this, data
      ensures |s| == limit - position
    {
      data[position..limit]
    }

    constructor (capacity: nat)
      ensures Valid() && fresh(data) && data.Length == capacity && position == 0 && limit == capacity
    {
      data := new bv8[capacity];
      position, limit := 0, capacity;
    }

    /** A copied handle: its own position, the same memory. */
    constructor Share(other: ByteBuffer)
      requires other.Valid()
      ensures Valid() && data == other.data && position == other.position && limit == other.limit
    {
      data := other.data;
      position, limit := other.position, other.limit;
    }

    method Clear()
      modifies `position, `limit
      ensures position == 0 && limit == data.Length
    {
      limit := data.Length;
      position := 0;
    }

    method Flip()
      modifies `position, `limit
      ensures position == 0 && limit == old(position)
    {
      limit := position;
      position := 0;
    }

    method Fill(value: bv8, count: nat)
      requires Valid() && position + count <= limit
      modifies `position, data
      ensures position == old(position) + count
      ensures forall i :: 0 <= i < data.Length ==>
                data[i] == if old(position) <= i < position then value else old(data[i])
    {
      forall i | position <= i < position + count {
        data[i] := value;
      }
      position := position + count;
    }

    method Get() returns (b: bv8)
      requires Valid() && position < limit
      modifies `position
      ensures position == old(position) + 1 && b == data[old(position)]
    {
      b := data[position];
      position := position + 1;
    }

    method Put(b: bv8)
      requires Valid() && position < limit
      modifies `position, data
      ensures position == old(position) + 1
      ensures data[..] == old(data[..])[old(position) := b]
    {
      data[position] := b;
      position := position + 1;
    }

    method GetBytes(count: nat) returns (bytes: seq<bv8>)
      requires Valid() && position + count <= limit
      modifies `position
      ensures position == old(position) + count && bytes == data[old(position)..position]
    {
      bytes := data[position..position + count];
      position := position + count;
    }

    /** The bytes go in at the position; everything else stays. */
    method PutBytes(bytes: seq<bv8>)
      requires Valid() && position + |bytes| <= limit
      modifies `position, data
      ensures position == old(position) + |bytes|
      ensures data[..] == old(data[..position]) + bytes + old(data[position + |bytes|..])
    {
      forall i | 0 <= i < |bytes| {
        data[position + i] := bytes[i];
      }
      position := position + |bytes|;
    }

    /** Fills another buffer with as much of its room as there is left here, and flips it. */
    method GetBuffer(into: ByteBuffer)
      requires Valid() && into.Valid() && into != this && into.data != data
      requires position <= limit && into.position <= into.limit
      modifies `position, into, into.data
      ensures position == old(position) + Least(old(into.limit - into.position), old(limit - position))
      ensures into.position == 0 && into.limit == old(into.position) + (position - old(position))
      ensures into.data[..] == old(into.data[..into.position]) + data[old(position)..position]
                               + old(into.data[into.position + Least(into.limit - into.position, limit - position)..])
    {
      var count := Least(into.limit - into.position, limit - position);
      into.PutBytes(data[position..position + count]);
      into.Flip();
      position := position + count;
    }

    /** Appends what another buffer still holds, which that buffer goes on holding. */
    method PutBuffer(from: ByteBuffer)
      requires Valid() && from.Valid() && from.data != data && from != this
      requires from.position <= from.limit && position + (from.limit - from.position) <= limit
      modifies `position, data
      ensures position == old(position) + |from.Rest()|
      ensures data[..] == old(data[..position]) + from.Rest() + old(data[position + |from.Rest()|..])
    {
      PutBytes(from.data[from.position..from.limit]);
    }

    /** Makes room without looking at the limit, and clears it on demand. */
    method Push(count: nat, clear: bool)
      requires Valid() && position + count <= data.Length
      modifies `position, data
      ensures position == old(position) + count
      ensures forall i :: 0 <= i < data.Length ==>
                data[i] == if clear && old(position) <= i < position then 0 else old(data[i])
    {
      if clear {
        forall i | position <= i < position + count {
          data[i] := 0;
        }
      }
      position := position + count;
    }

    // ---------- 64-bit numbers, most significant byte first ----------

    /** Of more than eight bytes, only the last eight are kept. */
    method GetLong(size: nat) returns (value: Word)
      requires Valid() && position + size <= limit
      modifies `position
      ensures position == old(position) + size
      ensures value == Long(data[old(position)..position])
    {
      hide ByteBits;
      var tmp := GetBytes(size);
      value := Zeros(64);
      var i := 0;
      while i < size
        invariant 0 <= i <= size
        invariant value == (Zeros(64) + Split(tmp[..i]))[8 * i..]
      {
        assert tmp[..i + 1][..i] == tmp[..i];
        value := value[8..] + ByteBits(tmp[i]);
        i := i + 1;
      }
      assert tmp[..size] == tmp;
    }

    method PutLong(value: Word, size: nat)
      requires Valid() && |value| == 64 && size <= 8 && position + size <= limit
      modifies `position, data
      ensures position == old(position) + size
      ensures data[..] == old(data[..position]) + Join(value[64 - 8 * size..]) + old(data[position + size..])
    {
      hide BitsByte, Join;
      JoinNothing();
      ghost var was, at := data[..], position;
      ghost var low := value[64 - 8 * size..];
      ghost var put := [];
      assert low[..0] == [] && was[..at] + [] + was[at..] == was;
      var i := 0;
      while i < size
        invariant 0 <= i <= size && position == at + i && put == Join(low[..8 * i]) && |put| == i
        invariant data[..] == was[..at] + put + was[at + i..]
      {
        var from := 64 - 8 * (size - i);
        var b := BitsByte(value[from..from + 8]);
        LowBits(value, size, i);
        JoinMore(low, i);
        PutOne(was, at, put, b);
        Put(b);
        put := put + [b];
        i := i + 1;
      }
      assert low[..8 * size] == low;
    }

    // ---------- rotation ----------

    method RotateLeft(count: nat)
      requires data.Length > 0
      modifies data
      ensures data[..] == TurnedLeft(old(data[..]), Reduced(count, data.Length))
    {
      hide TurnedLeft;
      var k := if count > data.Length then count % data.Length else count;
      ghost var was := data[..];
      var n := data.Length;
      var tmp := new bv8[k];
      var i := 0;
      while i < n
        invariant 0 <= i <= n
        invariant forall j :: 0 <= j < k && j < i ==> tmp[j] == was[j]
        invariant forall j :: 0 <= j < i ==> data[j] == TurnedLeft(was, k)[j]
        invariant forall j :: i <= j < n ==> data[j] == was[j]
      {
        TurnedAt(was, k, i);
        if i < k {
          tmp[i] := data[i];
        }
        if i < n - k {
          data[i] := data[i + k];
        } else {
          data[i] := tmp[i - n + k];
        }
        i := i + 1;
      }
    }

    method RotateRight(count: nat)
      requires data.Length > 0
      modifies data
      ensures data[..] == TurnedRight(old(data[..]), Reduced(count, data.Length))
    {
      hide TurnedRight;
      var k := if count > data.Length then count % data.Length else count;
      ghost var was := data[..];
      var n := data.Length;
      var tmp := new bv8[k];
      var i := n - 1;
      while i >= 0
        invariant -1 <= i < n
        invariant forall j :: 0 <= j < k && i < j + n - k ==> tmp[j] == was[j + n - k]
        invariant forall j :: i < j < n ==> data[j] == TurnedRight(was, k)[j]
        invariant forall j :: 0 <= j <= i ==> data[j] == was[j]
      {
        TurnedAt(was, k, i);
        if i >= n - k {
          tmp[i - n + k] := data[i];
        }
        if i >= k {
          data[i] := data[i - k];
        } else {
          data[i] := tmp[i];
        }
        i := i - 1;
      }
    }
  }

  lemma JoinMore(w: Word, i: nat)
    requires 8 * i + 8 <= |w|
    ensures Join(w[..8 * i + 8]) == Join(w[..8 * i]) + [BitsByte(w[8 * i..8 * i + 8])]
  {
    hide BitsByte;
    var longer := w[..8 * i + 8];
    assert longer[..|longer| - 8] == w[..8 * i] && longer[|longer| - 8..] == w[8 * i..8 * i + 8];
  }

  function Least(a: nat, b: nat): (m: nat)
  {
    if a < b then a else b
  }

  // ---------- new buffers ----------

  method Zero(size: nat) returns (buffer: ByteBuffer)
    ensures fresh(buffer) && fresh(buffer.data) && buffer.Valid()
    ensures buffer.data.Length == size && buffer.position == 0 && buffer.limit == size
    ensures forall i :: 0 <= i < size ==> buffer.data[i] == 0
  {
    buffer := new ByteBuffer(size);
    buffer.Fill(0, size);
    buffer.Flip();
  }

  method Xored(a: ByteBuffer, b: ByteBuffer) returns (output: ByteBuffer)
    requires a.data.Length == b.data.Length
    ensures fresh(output) && fresh(output.data) && output.Valid()
    ensures output.position == 0 && output.limit == output.data.Length
    ensures output.data[..] == XorBytes(a.data[..], b.data[..])
  {
    output := new ByteBuffer(a.data.Length);
    output.Push(a.data.Length, false);
    var i := 0;
    while i < a.data.Length
      invariant 0 <= i <= a.data.Length
      invariant output.position == output.data.Length == output.limit
      invariant forall j :: 0 <= j < i ==> output.data[j] == XorByte(a.data[j], b.data[j])
    {
      output.data[i] := a.data[i] ^ b.data[i];
      i := i + 1;
    }
    output.Flip();
  }

  method Copy(a: ByteBuffer) returns (copy: ByteBuffer)
    requires a.Valid()
    ensures fresh(copy) && fresh(copy.data) && copy.Valid()
    ensures copy.data[..] == a.data[..] && copy.position == a.position && copy.limit == a.limit
  {
    copy := new ByteBuffer(a.data.Length);
    copy.PutBytes(a.data[..]);
    copy.position, copy.limit := a.position, a.limit;
  }

  /** A piece counted from the position, or with a negative offset back from the limit. */
  method Slice(a: ByteBuffer, offset: int, length: nat) returns (copy: ByteBuffer)
    requires a.Valid() && a.position <= a.limit
    requires if offset >= 0 then a.position + offset + length <= a.limit else length <= -offset <= a.limit
    ensures fresh(copy) && fresh(copy.data) && copy.Valid() && copy.position == 0 && copy.limit == copy.data.Length
    ensures var from := if offset >= 0 then a.position + offset else a.limit + offset;
            copy.data[..] == a.data[from..from + length]
  {
    copy := new ByteBuffer(length);
    if offset >= 0 {
      copy.PutBytes(a.data[a.position + offset..a.position + offset + length]);
    } else {
      copy.PutBytes(a.data[a.limit + offset..a.limit + offset + length]);
    }
    copy.Flip();
  }

  method ShiftBitsLeft(input: ByteBuffer) returns (output: ByteBuffer)
    ensures fresh(output) && fresh(output.data) && output.Valid()
    ensures output.position == 0 && output.limit == output.data.Length
    ensures output.data[..] == ShiftedLeft(input.data[..], 0)
  {
    hide LeftByte, Leaving;
    var n := input.data.Length;
    output := new ByteBuffer(n);
    output.Push(n, false);
    var i := 0;
    while i < n
      invariant 0 <= i <= n
      invariant output.position == output.data.Length == output.limit
      invariant forall j :: 0 <= j < i - 1 ==> output.data[j] == LeftByte(input.data[j], Leaving(input.data[j + 1]))
      invariant i > 0 ==> output.data[i - 1] == LeftByte(input.data[i - 1], 0)
    {
      output.data[i] := input.data[i] << 1;
      Doubled(input.data[i]);
      if i > 0 {
        CarriedUp(input.data[i - 1], input.data[i]);
        output.data[i - 1] := output.data[i - 1] | (input.data[i] >> 7);
      }
      i := i + 1;
    }
    output.Flip();
  }

  lemma Doubled(x: bv8)
    ensures x << 1 == LeftByte(x, 0)
  {
  }

  lemma CarriedUp(x: bv8, after: bv8)
    ensures LeftByte(x, 0) | (after >> 7) == LeftByte(x, Leaving(after))
  {
  }

  method ShiftBitsRight(input: ByteBuffer) returns (output: ByteBuffer)
    ensures fresh(output) && fresh(output.data) && output.Valid()
    ensures output.position == 0 && output.limit == output.data.Length
    ensures output.data[..] == ShiftedRight(input.data[..])
  {
    hide RightByte, ShiftedRight;
    var n := input.data.Length;
    output := new ByteBuffer(n);
    output.Push(n, false);
    var i := 0;
    while i < n
      invariant 0 <= i <= n
      invariant output.position == output.data.Length == output.limit
      invariant forall j :: 0 <= j < i ==> output.data[j] == ShiftedRight(input.data[..])[j]
    {
      output.data[i] := input.data[i] >> 1;
      Halved(input.data[i]);
      if i > 0 {
        CarriedDown(input.data[i], input.data[i - 1]);
        output.data[i] := output.data[i] | (input.data[i - 1] << 7);
      }
      ShiftedRightAt(input.data[..], i);
      i := i + 1;
    }
    output.Flip();
  }

  lemma ShiftedRightAt(s: seq<bv8>, i: nat)
    requires i < |s|
    ensures ShiftedRight(s)[i] == RightByte(s[i], if i > 0 then s[i - 1] else 0)
  {
  }

  lemma Halved(x: bv8)
    ensures x >> 1 == RightByte(x, 0)
  {
  }

  lemma CarriedDown(x: bv8, before: bv8)
    ensures RightByte(x, 0) | (before << 7) == RightByte(x, before)
  {
  }

  /** What `GetLong` reads from some bytes. */
  function Long(bytes: seq<bv8>): (value: Word)
    ensures |value| == 64
  {
    (Zeros(64) + Split(bytes))[8 * |bytes|..]
  }

  /** A number that was put in some bytes comes back with its higher bytes cleared, and eight
      bytes that were got as a number are put back as they were. */
  lemma LongRoundTrip(value: Word, size: nat, bytes: seq<bv8>)
    requires |value| == 64 && size <= 8 && |bytes| == 8
    ensures Long(Join(value[64 - 8 * size..])) == Zeros(64 - 8 * size) + value[64 - 8 * size..]
    ensures Long(bytes) == Split(bytes) && Join(Long(bytes)) == bytes
  {
    hide Split, Join;
    var low := value[64 - 8 * size..];
    SplitJoin(low);
    DropZeros(low);
    DropZeros(Split(bytes));
    assert Zeros(0) + Split(bytes) == Split(bytes);
    JoinSplit(bytes);
  }

  lemma DropZeros(w: Word)
    requires |w| <= 64
    ensures (Zeros(64) + w)[|w|..] == Zeros(64 - |w|) + w
  {
  }
}
