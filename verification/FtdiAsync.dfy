/**
 The asynchronous reader of libftdi: a submitted read is carried forward by a completion
 callback that resubmits the transfer until the caller's buffer is full.
 */
module FtdiAsync {
  import opened FtdiRead

  const PENDING := 0
  const COMPLETED := 1
  const CANCELLED := 3

  class TransferControl {
    const buf: array<bv8>
    const size: nat
    var offset: nat
    var completed: int

    constructor (buf: array<bv8>, size: nat)
      ensures this.buf == buf && this.size == size && offset == 0 && completed == PENDING
    {
      this.buf, this.size, offset, completed := buf, size, 0, PENDING;
    }
  }

  /** A pending read between two callbacks: nothing waits in the read buffer. */
  ghost predicate Waiting(ftdi: Context, tc: TransferControl)
    reads ftdi, tc
  {
    && 3 <= ftdi.packetSize && tc.buf != ftdi.readbuffer
    && tc.completed == PENDING && tc.offset < tc.size <= tc.buf.Length
    && ftdi.offset == 0 && ftdi.remaining == 0
  }

  /** The bytes handed to the caller so far. */
  ghost function Got(tc: TransferControl): seq<bv8>
    requires tc.offset <= tc.buf.Length
    reads tc, tc.buf
  {
    tc.buf[..tc.offset]
  }

  /** How far the start of a transfer gets: there may be no memory for the control block, none for
      the transfer, or the device may not take the transfer. */
  datatype Start = NoControl | NoTransfer | NotSubmitted | Submitted

  /** Without a transfer nothing is returned. By then the bytes that were left over are in the
      caller's buffer, and when it was the device that refused they are nowhere else. */
  method Submit(ftdi: Context, buf: array<bv8>, size: nat, start: Start) returns (tc: TransferControl?)
    requires ftdi.Valid() && 3 <= ftdi.packetSize && size <= buf.Length && buf != ftdi.readbuffer
    modifies ftdi`offset, ftdi`remaining, buf
    ensures ftdi.Valid()
    ensures tc == null <==> start == NoControl || (|old(ftdi.Left())| < size && start != Submitted)
    ensures start == NoControl ==> ftdi.Left() == old(ftdi.Left()) && buf[..] == old(buf[..])
    ensures tc == null && start != NoControl ==>
              && buf[..|old(ftdi.Left())|] == old(ftdi.Left())
              && ftdi.Left() == if start == NoTransfer then old(ftdi.Left()) else []
    ensures tc != null ==>
              && fresh(tc) && tc.buf == buf && tc.size == size && tc.offset <= size
              && var left := old(ftdi.Left());
                 if size <= |left| then
                   tc.completed == COMPLETED && Got(tc) == left[..size] && ftdi.Left() == left[size..]
                 else
                   Waiting(ftdi, tc) && Got(tc) == left
  {
    if start == NoControl {
      return null;
    }
    tc := new TransferControl(buf, size);
    if size <= ftdi.remaining {
      ftdi.TakeFront(buf, size);
      tc.completed := COMPLETED;
      tc.offset := size;
      return;
    }
    tc.offset := ftdi.CopyLeft(buf);
    if start == NoTransfer {
      return null;
    }
    ftdi.remaining := 0;
    ftdi.offset := 0;
    if start == NotSubmitted {
      return null;
    }
  }

  /** The completion callback. The transfer has put `n` bytes into the read buffer; `cancelled`
      is its status and `resubmit` the answer of the attempt to submit it once more. */
  method Callback(ftdi: Context, tc: TransferControl, n: nat, cancelled: bool, resubmit: int)
    requires ftdi.Valid() && Waiting(ftdi, tc) && n <= ftdi.readbuffer.Length
    modifies ftdi`offset, ftdi`remaining, ftdi.readbuffer, tc, tc.buf
    ensures ftdi.Valid() && tc.offset <= tc.size
    ensures var all := old(Got(tc)) + Payload(old(ftdi.readbuffer[..n]), ftdi.packetSize);
            if |all| < tc.size then
              && Got(tc) == all && ftdi.offset == 0 && ftdi.remaining == 0
              && tc.completed == if cancelled then CANCELLED else if resubmit < 0 then COMPLETED else PENDING
            else
              tc.completed == COMPLETED && Got(tc) == all[..tc.size] && ftdi.Left() == all[tc.size..]
  {
    if n > 2 {
      var len := ftdi.StripStatus(n);
      if len > 0 {
        var fits := tc.offset + len <= tc.size;
        tc.offset := ftdi.Deliver(tc.buf, tc.offset, tc.size, len);
        if fits {
          ftdi.offset := 0;
          ftdi.remaining := 0;
          if tc.offset == tc.size {
            tc.completed := COMPLETED;
            return;
          }
        } else {
          tc.completed := COMPLETED;
          return;
        }
      }
    }
    if cancelled {
      tc.completed := CANCELLED;
    } else if resubmit < 0 {
      tc.completed := COMPLETED;
    }
  }

  /** What a whole asynchronous read does with the transfers that `arrive`, none of them
      cancelled and every resubmission accepted. */
  datatype AsyncOutcome = AsyncOutcome(done: bool, copied: seq<bv8>, left: seq<bv8>, rest: seq<seq<bv8>>)

  function ReadAsync(left: seq<bv8>, arrive: seq<seq<bv8>>, size: nat, p: int): (o: AsyncOutcome)
    requires 3 <= p
  {
    if size <= |left| then AsyncOutcome(true, left[..size], left[size..], arrive)
    else FillAsync(left, arrive, size, p)
  }

  function FillAsync(got: seq<bv8>, arrive: seq<seq<bv8>>, size: nat, p: int): (o: AsyncOutcome)
    requires 3 <= p && |got| < size
    decreases |arrive|
  {
    if arrive == [] then AsyncOutcome(false, got, [], [])
    else
      var all := got + Payload(arrive[0], p);
      if |all| < size then FillAsync(all, arrive[1..], size, p)
      else AsyncOutcome(true, all[..size], all[size..], arrive[1..])
  }

  /** Submission and the chain of callbacks, driven by the transfers as they arrive. */
  method Drive(ftdi: Context, buf: array<bv8>, size: nat, arrive: seq<seq<bv8>>)
    returns (tc: TransferControl, used: nat)
    requires ftdi.Valid() && 3 <= ftdi.packetSize && size <= buf.Length && buf != ftdi.readbuffer
    requires forall i :: 0 <= i < |arrive| ==> |arrive[i]| <= ftdi.readbuffer.Length
    modifies ftdi`offset, ftdi`remaining, ftdi.readbuffer, buf
    ensures ftdi.Valid() && fresh(tc) && tc.buf == buf && tc.offset <= buf.Length && used <= |arrive|
    ensures ReadAsync(old(ftdi.Left()), arrive, size, ftdi.packetSize)
         == AsyncOutcome(tc.completed == COMPLETED, Got(tc), ftdi.Left(), arrive[used..])
  {
    ghost var goal := ReadAsync(ftdi.Left(), arrive, size, ftdi.packetSize);
    tc := Submit(ftdi, buf, size, Submitted);
    used := 0;
    while tc.completed == PENDING && used < |arrive|
      invariant ftdi.Valid() && used <= |arrive| && fresh(tc) && tc.buf == buf && tc.size == size && tc.offset <= size
      invariant tc.completed == PENDING ==>
                  Waiting(ftdi, tc) && goal == FillAsync(Got(tc), arrive[used..], size, ftdi.packetSize)
      invariant tc.completed != PENDING ==>
                  tc.completed == COMPLETED && goal == AsyncOutcome(true, Got(tc), ftdi.Left(), arrive[used..])
      decreases |arrive| - used
    {
      Receive(ftdi, arrive[used]);
      Callback(ftdi, tc, |arrive[used]|, false, 0);
      used := used + 1;
    }
  }

  /** The transfer itself: the device fills the front of the read buffer. */
  method Receive(ftdi: Context, bytes: seq<bv8>)
    requires |bytes| <= ftdi.readbuffer.Length
    modifies ftdi.readbuffer
    ensures ftdi.readbuffer[..|bytes|] == bytes
  {
    forall k | 0 <= k < |bytes| {
      ftdi.readbuffer[k] := bytes[k];
    }
  }

  /** The transfers that carry payload; the synchronous reader stops at the others, the
      asynchronous one waits on. */
  function Loaded(arrive: seq<seq<bv8>>): (ts: seq<Transfer>)
  {
    if arrive == [] then []
    else (if |arrive[0]| > 2 then [Data(arrive[0])] else []) + Loaded(arrive[1..])
  }

  /** The asynchronous reader agrees with the synchronous one: fed with the same transfers,
      apart from the empty ones, it hands out the same bytes and leaves the same bytes behind. */
  lemma {:induction false} AsyncAgrees(left: seq<bv8>, arrive: seq<seq<bv8>>, size: nat, p: int)
    requires 3 <= p
    ensures var a, s := ReadAsync(left, arrive, size, p), Read(left, Loaded(arrive), size, p);
            && a.copied == s.copied && a.left == s.left && Loaded(a.rest) == s.usb
            && (a.done <==> s.ret == size)
  {
    if size > |left| {
      FillAgrees(left, arrive, size, p);
    }
  }

  lemma {:induction false} FillAgrees(got: seq<bv8>, arrive: seq<seq<bv8>>, size: nat, p: int)
    requires 3 <= p && |got| < size
    ensures var a, s := FillAsync(got, arrive, size, p), Fill(got, Loaded(arrive), size, p);
            && a.copied == s.copied && a.left == s.left && Loaded(a.rest) == s.usb
            && (a.done <==> s.ret == size)
    decreases |arrive|
  {
    if arrive != [] {
      var all := got + Payload(arrive[0], p);
      if |arrive[0]| > 2 {
        assert Loaded(arrive)[1..] == Loaded(arrive[1..]);
        if |all| < size {
          FillAgrees(all, arrive[1..], size, p);
        }
      } else {
        assert all == got && Loaded(arrive) == Loaded(arrive[1..]);
        FillAgrees(got, arrive[1..], size, p);
      }
    }
  }
}
