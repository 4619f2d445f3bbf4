/**
 Whole archives: what the writer produces, walking over it, and looking for a name in it.
 */
module TarArchive {
  import opened TarHeader
  import opened Tar
  import opened Seqs

  /** A file in an archive. */
  datatype Entry = Entry(header: Header, bytes: seq<Byte>)

  ghost predicate Proper(e: Entry) {
    Fits(e.header) && e.header.size == |e.bytes|
  }

  ghost predicate AllProper(es: seq<Entry>) {
    forall k :: 0 <= k < |es| ==> Proper(es[k])
  }

  function Padding(n: nat): (s: seq<Byte>)
    ensures (n + |s|) % 512 == 0
  {
    Repeat(0, RoundUp(n) - n)
  }

  function Record(e: Entry): (s: seq<Byte>)
    ensures |s| == HEADER_SIZE + RoundUp(|e.bytes|)
  {
    Raw(e.header) + e.bytes + Padding(|e.bytes|)
  }

  function Records(es: seq<Entry>): (s: seq<Byte>)
  {
    if es == [] then [] else Record(es[0]) + Records(es[1..])
  }

  /** A finished archive ends with two empty records. */
  function Archive(es: seq<Entry>): (s: seq<Byte>)
  {
    Records(es) + Repeat(0, 2 * HEADER_SIZE)
  }

  function Join<T>(parts: seq<seq<T>>): (s: seq<T>)
  {
    if parts == [] then [] else Join(parts[..|parts| - 1]) + parts[|parts| - 1]
  }

  lemma {:induction false} RecordsAppend(a: seq<Entry>, b: seq<Entry>)
    ensures Records(a + b) == Records(a) + Records(b)
  {
    if a == [] {
      assert a + b == b;
    } else {
      assert (a + b)[1..] == a[1..] + b;
      RecordsAppend(a[1..], b);
    }
  }

  // ---------- writing ----------

  /** The writer is at the end of the file, between two records. */
  ghost predicate AtEnd(tar: Tar)
    reads tar
  {
    tar.at == tar.pos == |tar.data| && tar.pos % 512 == 0
  }

  /** What stands in the file once `done` of `size` bytes of a file are written. */
  function Written(h: Header, done: seq<Byte>, size: nat): (s: seq<Byte>)
  {
    Raw(h) + done + if |done| == size then Padding(size) else []
  }

  /** What WriteData appends completes the record, wherever the data was cut. */
  lemma WriteMore(d: seq<Byte>, h: Header, done: seq<Byte>, chunk: seq<Byte>, size: nat)
    requires |d| % 512 == 0 && |done| + |chunk| <= size
    ensures var now := d + Written(h, done, size);
            var end := |now| + |chunk|;
            && now + (chunk + if |done| + |chunk| == size then Repeat(0, RoundUp(end) - end) else [])
            == d + Written(h, done + chunk, size)
  {
    hide Raw, RoundUp, Repeat, Padding;
    if |done| == size {
      assert chunk == [] && done + chunk == done;
      NothingMore(d + Written(h, done, size), d, h, done, size);
    } else {
      var pad := if |done| + |chunk| == size then Padding(size) else [];
      if |done| + |chunk| == size {
        PadHere(|d|, size);
      }
      assert d + (Raw(h) + done + []) + (chunk + pad) == d + (Raw(h) + (done + chunk) + pad);
    }
  }

  lemma NothingMore(now: seq<Byte>, d: seq<Byte>, h: Header, done: seq<Byte>, size: nat)
    requires |d| % 512 == 0 && |done| == size && now == d + Written(h, done, size)
    ensures now + ([] + Repeat(0, RoundUp(|now|) - |now|)) == now
  {
    hide Raw;
    assert |now| % 512 == 0;
    assert now + [] == now;
  }

  lemma PadHere(before: nat, size: nat)
    requires before % 512 == 0
    ensures Repeat(0, RoundUp(before + HEADER_SIZE + size) - (before + HEADER_SIZE + size)) == Padding(size)
  {
    assert (before + HEADER_SIZE + size) % 512 == size % 512;
  }

  /** The writer has written the header and `done` of the data behind `d`. */
  ghost predicate InEntry(tar: Tar, d: seq<Byte>, h: Header, done: seq<Byte>)
    reads tar
  {
    && tar.at == tar.pos == |tar.data| && |d| % 512 == 0
    && |d| + HEADER_SIZE + RoundUp(h.size) < UNSIGNED
    && |done| <= h.size && tar.remaining == h.size - |done|
    && tar.data == d + Written(h, done, h.size)
  }

  method WriteChunk(tar: Tar, chunk: seq<Byte>, ghost d: seq<Byte>, ghost h: Header, ghost done: seq<Byte>)
    requires InEntry(tar, d, h, done) && |done| + |chunk| <= h.size
    modifies tar`data, tar`at, tar`pos, tar`remaining
    ensures InEntry(tar, d, h, done + chunk)
  {
    WriteMore(d, h, done, chunk, h.size);
    ghost var now := tar.data;
    ghost var all := chunk + if |done| + |chunk| == h.size then Repeat(0, RoundUp(|now| + |chunk|) - (|now| + |chunk|)) else [];
    assert |now + all| == |d + Written(h, done + chunk, h.size)|;
    tar.WriteData(chunk);
    assert tar.data == now + all;
  }

  method WriteEntry(tar: Tar, h: Header, chunks: seq<seq<Byte>>)
    requires AtEnd(tar) && Proper(Entry(h, Join(chunks)))
    requires |tar.data| + |Record(Entry(h, Join(chunks)))| < UNSIGNED
    modifies tar`data, tar`at, tar`pos, tar`remaining
    ensures AtEnd(tar) && tar.data == old(tar.data) + Record(Entry(h, Join(chunks)))
  {
    hide Raw, RoundUp;
    ghost var d := tar.data;
    tar.WriteHeader(h);
    assert tar.data == d + Written(h, [], h.size);
    for i := 0 to |chunks|
      invariant InEntry(tar, d, h, Join(chunks[..i]))
    {
      JoinStep(chunks, i);
      WriteChunk(tar, chunks[i], d, h, Join(chunks[..i]));
    }
    assert chunks[..|chunks|] == chunks;
  }

  lemma {:induction false} JoinStep<T>(parts: seq<seq<T>>, i: nat)
    requires i < |parts|
    ensures Join(parts[..i + 1]) == Join(parts[..i]) + parts[i]
    ensures |Join(parts[..i + 1])| <= |Join(parts)|
    decreases |parts|
  {
    assert parts[..i + 1][..i] == parts[..i];
    if i + 1 < |parts| {
      var rest := parts[..|parts| - 1];
      assert rest[..i + 1] == parts[..i + 1];
      JoinStep(rest, i);
    } else {
      assert parts[..i + 1] == parts;
    }
  }

  /** A file to write: its header and its data, cut at will. */
  datatype Source = Source(header: Header, chunks: seq<seq<Byte>>)

  function EntriesOf(ss: seq<Source>): (es: seq<Entry>)
    ensures |es| == |ss| && forall k :: 0 <= k < |ss| ==> es[k] == Entry(ss[k].header, Join(ss[k].chunks))
  {
    seq(|ss|, k requires 0 <= k < |ss| => Entry(ss[k].header, Join(ss[k].chunks)))
  }

  method WriteArchive(ss: seq<Source>) returns (tar: Tar)
    requires AllProper(EntriesOf(ss)) && |Archive(EntriesOf(ss))| < UNSIGNED
    ensures fresh(tar) && tar.data == Archive(EntriesOf(ss))
  {
    tar := new Tar([]);
    ghost var es := EntriesOf(ss);
    for i := 0 to |ss|
      invariant fresh(tar) && AtEnd(tar) && tar.data == Records(es[..i])
    {
      RecordsNext(es, i);
      RecordsSplit(es, i + 1);
      WriteEntry(tar, ss[i].header, ss[i].chunks);
    }
    assert es[..|ss|] == es;
    tar.Finalize();
  }

  lemma RecordsOne(e: Entry)
    ensures Records([e]) == Record(e)
  {
    assert [e][1..] == [];
  }

  lemma RecordsNext(es: seq<Entry>, i: nat)
    requires i < |es|
    ensures Records(es[..i + 1]) == Records(es[..i]) + Record(es[i])
  {
    hide *;
    RecordsAppend(es[..i], [es[i]]);
    assert es[..i + 1] == es[..i] + [es[i]];
    RecordsOne(es[i]);
  }

  lemma RecordsSplit(es: seq<Entry>, i: nat)
    requires i <= |es|
    ensures Records(es) == Records(es[..i]) + Records(es[i..])
  {
    hide *;
    RecordsAppend(es[..i], es[i..]);
    assert es == es[..i] + es[i..];
  }

  lemma {:induction false} RecordsAligned(es: seq<Entry>)
    ensures |Records(es)| % 512 == 0
  {
    if es != [] {
      hide Record, RoundUp;
      RecordsAligned(es[1..]);
      RecordAligned(es[0]);
      AlignedSum(|Record(es[0])|, |Records(es[1..])|);
    }
  }

  lemma RecordAligned(e: Entry)
    ensures |Record(e)| % 512 == 0
  {
    hide Raw;
  }

  lemma AlignedSum(a: nat, b: nat)
    requires a % 512 == 0 && b % 512 == 0
    ensures (a + b) % 512 == 0
  {
  }

  // ---------- reading ----------

  /** The record of `e` stands at `p`. */
  ghost predicate Stands(d: seq<Byte>, p: nat, e: Entry) {
    Proper(e) && p + |Record(e)| <= |d| < UNSIGNED && d[p..p + |Record(e)|] == Record(e)
  }

  lemma StandsAt(d: seq<Byte>, p: nat, e: Entry)
    requires Stands(d, p, e)
    ensures d[p..p + HEADER_SIZE] == Raw(e.header)
    ensures p + HEADER_SIZE + |e.bytes| <= |d| < UNSIGNED
    ensures d[p + HEADER_SIZE..p + HEADER_SIZE + |e.bytes|] == e.bytes
  {
    hide Raw, RoundUp;
    var n, m := |e.bytes|, |Record(e)|;
    ConcatParts(Raw(e.header), e.bytes, Padding(n));
    SliceSlice(d, p, p + m, 0, HEADER_SIZE);
    SliceSlice(d, p, p + m, HEADER_SIZE, HEADER_SIZE + n);
  }

  lemma HeaderStands(d: seq<Byte>, p: nat, e: Entry, prior: Header)
    requires Stands(d, p, e)
    ensures HeaderAt(d, p, prior) == Ok(Stored(e.header))
  {
    hide Raw, Parse;
    StandsAt(d, p, e);
    HeaderRoundTrip(e.header, prior);
  }

  /** Where a reader of the entry at `p` is, once it has read `done` bytes. */
  function Reading(p: Unsigned, e: Entry, done: nat): (c: Cursor)
    requires done <= |e.bytes| < UNSIGNED && p + HEADER_SIZE + |e.bytes| < UNSIGNED
  {
    if done == |e.bytes| then Cursor(p, 0, p) else Cursor(p + HEADER_SIZE + done, |e.bytes| - done, p)
  }

  /** One read of any size that stays within the entry, whether it is the first or not. */
  lemma ReadPiece(d: seq<Byte>, p: Unsigned, e: Entry, done: nat, n: Unsigned, c: Cursor, prior: Header)
    requires Stands(d, p, e) && done + n <= |e.bytes| && p + HEADER_SIZE + |e.bytes| <= |d|
    requires (done == 0 && c.pos == p && c.remaining == 0) || (done < |e.bytes| && c == Reading(p, e, done))
    ensures var b := Begin(d, c, prior);
            b.Ok? && Consume(d, b.value, n) == Ok((e.bytes[done..done + n], Reading(p, e, done + n)))
  {
    hide Record, Stands, Begin, Consume;
    BeginPiece(d, p, e, done, c, prior);
    StandsAt(d, p, e);
    var from := p + HEADER_SIZE;
    ConsumePiece(d, from + done, |e.bytes| - done, p, n);
    SliceSlice(d, from, from + |e.bytes|, done, done + n);
  }

  lemma ConsumePiece(d: seq<Byte>, at: Unsigned, left: Unsigned, p: Unsigned, n: Unsigned)
    requires n <= left && at + left <= |d| < UNSIGNED
    ensures Consume(d, Cursor(at, left, p), n)
         == Ok((d[at..at + n], if n == left then Cursor(p, 0, p) else Cursor(at + n, left - n, p)))
  {
    assert d[at..at] == [];
  }

  /** A reader that starts an entry, or goes on with it. */
  lemma BeginPiece(d: seq<Byte>, p: Unsigned, e: Entry, done: nat, c: Cursor, prior: Header)
    requires Stands(d, p, e) && done <= |e.bytes| && p + HEADER_SIZE + |e.bytes| <= |d|
    requires (done == 0 && c.pos == p && c.remaining == 0) || (done < |e.bytes| && c == Reading(p, e, done))
    ensures Begin(d, c, prior) == Ok(Cursor(p + HEADER_SIZE + done, |e.bytes| - done, p))
  {
    hide Record, HeaderAt;
    HeaderStands(d, p, e, prior);
  }

  function Total(ns: seq<Unsigned>): (n: nat)
  {
    if ns == [] then 0 else Total(ns[..|ns| - 1]) + ns[|ns| - 1]
  }

  lemma {:induction false} TotalStep(ns: seq<Unsigned>, i: nat)
    requires i < |ns|
    ensures Total(ns[..i + 1]) == Total(ns[..i]) + ns[i] <= Total(ns)
    decreases |ns|
  {
    assert ns[..i + 1][..i] == ns[..i];
    if i + 1 < |ns| {
      var rest := ns[..|ns| - 1];
      assert rest[..i + 1] == ns[..i + 1] && rest[..i] == ns[..i];
      TotalStep(rest, i);
    } else {
      assert ns[..i + 1] == ns;
    }
  }

  /** Where a reader of the entry at `p` is after the reads of `plan`, of which there was one at
      least. A read of nothing after the last byte starts the entry again. */
  function Reached(p: Unsigned, e: Entry, plan: seq<Unsigned>): (c: Cursor)
    requires plan != [] && Total(plan) <= |e.bytes| < UNSIGNED && p + HEADER_SIZE + |e.bytes| < UNSIGNED
  {
    if Total(plan) == |e.bytes| && !Settled(plan, |e.bytes|) then Reading(p, e, 0) else Reading(p, e, Total(plan))
  }

  /** The last read of a file of `size` bytes is the one that gets its last byte. */
  predicate Settled(plan: seq<Unsigned>, size: nat)
    requires Total(plan) == size
  {
    size == 0 || plan[|plan| - 1] > 0
  }

  lemma ReadNothing(d: seq<Byte>, p: Unsigned, e: Entry, c: Cursor, prior: Header)
    requires Stands(d, p, e) && p + HEADER_SIZE + |e.bytes| <= |d|
    requires (c.pos == p && c.remaining == 0) || (e.bytes != [] && c == Reading(p, e, 0))
    ensures var b := Begin(d, c, prior);
            b.Ok? && Consume(d, b.value, 0) == Ok(([], Reading(p, e, 0)))
  {
    hide Record, HeaderAt;
    HeaderStands(d, p, e, prior);
  }

  /** One more read of a plan, which gets the bytes that come next. */
  lemma ReadOn(d: seq<Byte>, p: Unsigned, e: Entry, plan: seq<Unsigned>, i: nat, c: Cursor, prior: Header)
    requires Stands(d, p, e) && p + HEADER_SIZE + |e.bytes| <= |d| && i < |plan| && Total(plan) == |e.bytes|
    requires Total(plan[..i]) <= |e.bytes|
    requires if i == 0 then c.pos == p && c.remaining == 0 else c == Reached(p, e, plan[..i])
    ensures var b, done, now := Begin(d, c, prior), Total(plan[..i]), Total(plan[..i + 1]);
            && now == done + plan[i] <= |e.bytes|
            && b.Ok? && Consume(d, b.value, plan[i]) == Ok((e.bytes[done..now], Reached(p, e, plan[..i + 1])))
  {
    hide Stands, Begin, Consume;
    TotalStep(plan, i);
    hide Total;
    var done := Total(plan[..i]);
    if done == |e.bytes| {
      ReadNothing(d, p, e, c, prior);
      assert plan[..i + 1][i] == 0 && e.bytes[done..done] == [];
    } else {
      hide Reading;
      ReadPiece(d, p, e, done, plan[i], c, prior);
      assert plan[..i + 1][i] == plan[i];
    }
  }

  ghost predicate AtRecord(tar: Tar, p: nat)
    reads tar
  {
    tar.Synced() && tar.pos == p && tar.remaining == 0
  }

  /** Reads that add up to the size of the entry get its bytes, however they are cut. They leave
      the cursor on the header if and only if the last of them gets the last byte: a read of
      nothing that follows leaves it behind the header, at the start of the data. */
  method ReadEntry(tar: Tar, plan: seq<Unsigned>, prior: Header, ghost p: Unsigned, ghost e: Entry) returns (bytes: seq<Byte>)
    requires AtRecord(tar, p) && Stands(tar.data, p, e) && Total(plan) == |e.bytes|
    modifies tar`at, tar`pos, tar`lastHeader, tar`remaining
    ensures tar.Synced() && bytes == e.bytes
    ensures AtRecord(tar, p) <==> Settled(plan, |e.bytes|)
    ensures !Settled(plan, |e.bytes|) ==> tar.Cur() == Cursor(p + HEADER_SIZE, |e.bytes|, p)
  {
    bytes := [];
    StandsAt(tar.data, p, e);
    for i := 0 to |plan|
      invariant tar.Synced() && Total(plan[..i]) <= |e.bytes|
      invariant bytes == e.bytes[..Total(plan[..i])]
      invariant if i == 0 then tar.pos == p && tar.remaining == 0 else tar.Cur() == Reached(p, e, plan[..i])
    {
      hide *;
      ReadOn(tar.data, p, e, plan, i, tar.Cur(), prior);
      ghost var done, now := Total(plan[..i]), Total(plan[..i + 1]);
      assert e.bytes[..now] == e.bytes[..done] + e.bytes[done..now];
      var err, piece := tar.ReadData(plan[i], prior);
      bytes := bytes + piece;
    }
    assert plan[..|plan|] == plan;
  }

  // ---------- walking ----------

  ghost function Offset(es: seq<Entry>, k: nat): (n: nat)
    requires k <= |es|
  {
    |Records(es[..k])|
  }

  lemma ArchiveStands(es: seq<Entry>, k: nat)
    requires AllProper(es) && |Archive(es)| < UNSIGNED && k < |es|
    ensures Stands(Archive(es), Offset(es, k), es[k])
    ensures Offset(es, k + 1) == Offset(es, k) + HEADER_SIZE + RoundUp(|es[k].bytes|) < UNSIGNED
  {
    hide Record;
    RecordsNext(es, k);
    RecordsSplit(es, k + 1);
    var p := Offset(es, k);
    var r := Record(es[k]);
    assert Archive(es) == Records(es[..k]) + r + (Records(es[k + 1..]) + Repeat(0, 2 * HEADER_SIZE));
    assert Archive(es)[p..p + |r|] == r;
  }

  lemma ArchiveEnds(es: seq<Entry>, prior: Header)
    ensures HeaderAt(Archive(es), Offset(es, |es|), prior) == Err(NullRecord)
  {
    hide Record, Records;
    assert es[..|es|] == es;
    var p := |Records(es)|;
    assert Archive(es)[p..p + HEADER_SIZE] == Repeat(0, HEADER_SIZE);
  }

  /** What the reader gets to see of an entry. */
  function Seen(e: Entry): (r: Entry)
  {
    Entry(Stored(e.header), e.bytes)
  }

  function AllSeen(es: seq<Entry>): (r: seq<Entry>)
    ensures |r| == |es| && forall k :: 0 <= k < |es| ==> r[k] == Seen(es[k])
  {
    seq(|es|, k requires 0 <= k < |es| => Seen(es[k]))
  }

  /** The reader is at entry `k` of a finished archive, or behind the last one. */
  ghost predicate AtEntry(tar: Tar, es: seq<Entry>, k: nat)
    reads tar
  {
    k <= |es| && AllProper(es) && tar.data == Archive(es) && |tar.data| < UNSIGNED && AtRecord(tar, Offset(es, k))
  }

  method HeaderOf(tar: Tar, prior: Header, ghost es: seq<Entry>, ghost k: nat) returns (r: Result<Header>)
    requires AtEntry(tar, es, k)
    modifies tar`at, tar`pos, tar`lastHeader
    ensures AtEntry(tar, es, k) && r == if k < |es| then Ok(Stored(es[k].header)) else Err(NullRecord)
  {
    hide Archive, Offset, Stands, HeaderAt;
    if k == |es| {
      ArchiveEnds(es, prior);
    } else {
      ArchiveStands(es, k);
      HeaderStands(tar.data, Offset(es, k), es[k], prior);
    }
    r := tar.ReadHeader(prior);
  }

  method NextEntry(tar: Tar, prior: Header, ghost es: seq<Entry>, ghost k: nat) returns (r: Result<Header>)
    requires AtEntry(tar, es, k) && k < |es|
    modifies tar`at, tar`pos, tar`lastHeader
    ensures AtEntry(tar, es, k + 1)
  {
    hide Archive, Offset, Stands, HeaderAt, RoundUp;
    ArchiveStands(es, k);
    HeaderStands(tar.data, Offset(es, k), es[k], prior);
    r := tar.Next(prior);
  }

  /** A plan that reads a file of `size` bytes and leaves the cursor where it was. */
  predicate ReadsAll(plan: seq<Unsigned>, size: nat) {
    Total(plan) == size && Settled(plan, size)
  }

  /** Reads the header and the data of every entry, each in the pieces of its plan, until the
      reader reports an error. */
  method Walk(tar: Tar, plans: seq<seq<Unsigned>>, prior: Header, ghost es: seq<Entry>) returns (out: seq<Entry>, err: Error)
    requires AtEntry(tar, es, 0)
    requires |plans| == |es| && forall k :: 0 <= k < |es| ==> ReadsAll(plans[k], |es[k].bytes|)
    modifies tar`at, tar`pos, tar`lastHeader, tar`remaining
    ensures out == AllSeen(es) && err == NullRecord
  {
    hide Archive, Offset, Total, Settled, Stored;
    out := [];
    while true
      invariant AtEntry(tar, es, |out|) && out == AllSeen(es)[..|out|]
      decreases |es| - |out|
    {
      var r := HeaderOf(tar, prior, es, |out|);
      if r.Err? {
        return out, r.error;
      }
      ArchiveStands(es, |out|);
      var bytes := ReadEntry(tar, plans[|out|], prior, Offset(es, |out|), es[|out|]);
      var skipped := NextEntry(tar, prior, es, |out|);
      out := out + [Entry(r.value, bytes)];
    }
  }

  /** The archive round trip: whatever was written, in pieces of any sizes, is read back in
      pieces of any sizes that end with the last byte of the entry, entry by entry and in order,
      up to the empty record at the end. */
  method RoundTrip(ss: seq<Source>, plans: seq<seq<Unsigned>>, prior: Header) returns (out: seq<Entry>, err: Error)
    requires AllProper(EntriesOf(ss)) && |Archive(EntriesOf(ss))| < UNSIGNED
    requires |plans| == |ss| && forall k :: 0 <= k < |ss| ==> ReadsAll(plans[k], |Join(ss[k].chunks)|)
    ensures err == NullRecord && |out| == |ss|
    ensures forall k :: 0 <= k < |ss| ==> out[k] == Entry(Stored(ss[k].header), Join(ss[k].chunks))
  {
    hide Archive;
    var tar := WriteArchive(ss);
    tar.Rewind();
    out, err := Walk(tar, plans, prior, EntriesOf(ss));
  }

  // ---------- finding ----------

  /** Looks for a name from the beginning of the archive, wherever the cursor was: the first
      entry with that name, with the cursor on its header, or NotFound when there is none. */
  method Find(tar: Tar, name: seq<Byte>, prior: Header, ghost es: seq<Entry>) returns (r: Result<Header>, ghost k: nat)
    requires AllProper(es) && tar.data == Archive(es) && |tar.data| < UNSIGNED
    modifies tar`at, tar`pos, tar`lastHeader, tar`remaining
    ensures AtEntry(tar, es, k) && forall j :: 0 <= j < k ==> es[j].header.name != name
    ensures k == |es| ==> r == Err(NotFound)
    ensures k < |es| ==> es[k].header.name == name && r == Ok(Stored(es[k].header))
  {
    hide Archive;
    tar.Rewind();
    k := 0;
    assert es[..0] == [];
    while true
      invariant AtEntry(tar, es, k) && forall j :: 0 <= j < k ==> es[j].header.name != name
      decreases |es| - k
    {
      hide Offset;
      r := HeaderOf(tar, prior, es, k);
      if r.Err? {
        if r == Err(NullRecord) {
          r := Err(NotFound);
        }
        return;
      }
      if r.value.name == name {
        return;
      }
      var skipped := NextEntry(tar, prior, es, k);
      k := k + 1;
    }
  }

  /** A file that was found is read whole, from its first byte. */
  method FindAndRead(tar: Tar, name: seq<Byte>, prior: Header, ghost es: seq<Entry>) returns (r: Result<seq<Byte>>)
    requires AllProper(es) && tar.data == Archive(es) && |tar.data| < UNSIGNED
    modifies tar`at, tar`pos, tar`lastHeader, tar`remaining
    ensures r.Err? ==> r == Err(NotFound) && forall j :: 0 <= j < |es| ==> es[j].header.name != name
    ensures r.Ok? ==> exists k :: 0 <= k < |es| && es[k].header.name == name && r.value == es[k].bytes
                                && forall j :: 0 <= j < k ==> es[j].header.name != name
  {
    hide Archive, Offset;
    var h; ghost var k;
    h, k := Find(tar, name, prior, es);
    if h.Err? {
      return Err(h.error);
    }
    ArchiveStands(es, k);
    var plan := [h.value.size];
    assert plan[..|plan| - 1] == [] && Total([]) == 0;
    assert Total(plan) == h.value.size && Settled(plan, h.value.size);
    var bytes := ReadEntry(tar, plan, prior, Offset(es, k), es[k]);
    r := Ok(bytes);
  }
}
