/**
 The receive path of libftdi. Every USB packet that the chip sends starts with two modem
 status bytes. The synchronous reader strips them in place from the shared read buffer and
 keeps what the caller did not ask for; the asynchronous reader does the same in a callback.
 */
module FtdiRead {

  /** Error codes of the USB library are negative. */
  type ErrorCode = c: int | c < 0 witness -1

  /** What the device will do with one bulk transfer. One that fails, a timeout for example, may
      have brought bytes too. */
  datatype Transfer = Data(bytes: seq<bv8>) | Failed(code: ErrorCode, bytes: seq<bv8>)

  /** The payload of one transfer: every packet of `p` bytes without its first two. */
  function Payload(t: seq<bv8>, p: int): (r: seq<bv8>)
    requires 3 <= p
    decreases |t|
  {
    if |t| <= 2 then []
    else if |t| <= p then t[2..]
    else t[2..p] + Payload(t[p..], p)
  }

  /** The payload of everything that arrived in a series of transfers. */
  function Stripped(ts: seq<Transfer>, p: int): (r: seq<bv8>)
    requires 3 <= p
  {
    if ts == [] then [] else Payload(ts[0].bytes, p) + Stripped(ts[1..], p)
  }

  /** The payload of the transfers that did not fail: the code does not look at the others. */
  function Regarded(ts: seq<Transfer>, p: int): (r: seq<bv8>)
    requires 3 <= p
  {
    if ts == [] then []
    else (if ts[0].Data? then Payload(ts[0].bytes, p) else []) + Regarded(ts[1..], p)
  }

  /** No failed transfer brought more than two status bytes. */
  predicate NothingLost(ts: seq<Transfer>)
  {
    forall i :: 0 <= i < |ts| && ts[i].Failed? ==> |ts[i].bytes| <= 2
  }

  lemma {:induction false} LostExactly(ts: seq<Transfer>, p: int)
    requires 3 <= p
    ensures |Regarded(ts, p)| <= |Stripped(ts, p)|
    ensures Regarded(ts, p) == Stripped(ts, p) <==> NothingLost(ts)
    ensures |Regarded(ts, p)| == |Stripped(ts, p)| <==> NothingLost(ts)
  {
    if ts != [] {
      LostExactly(ts[1..], p);
      if NothingLost(ts) {
        assert NothingLost(ts[1..]);
      } else if !(ts[0].Failed? && |ts[0].bytes| > 2) {
        var i :| 0 <= i < |ts| && ts[i].Failed? && |ts[i].bytes| > 2;
        assert ts[1..][i - 1] == ts[i];
      }
    }
  }

  /** Multiplying out one step, the only non-linear fact the packet arithmetic needs. */
  lemma MulStep(q: int, p: int)
    ensures (q + 1) * p == q * p + p
  {
  }

  lemma {:induction false} PayloadAppend(a: seq<bv8>, b: seq<bv8>, p: int, q: nat)
    requires 3 <= p && |a| == q * p
    ensures Payload(a + b, p) == Payload(a, p) + Payload(b, p)
    decreases q
  {
    if q == 0 {
      assert a + b == b;
    } else {
      MulStep(q - 1, p);
      assert |a| == (q - 1) * p + p;
      assert (a + b)[p..] == a[p..] + b;
      assert (a + b)[2..p] == a[2..p];
      PayloadAppend(a[p..], b, p, q - 1);
    }
  }

  lemma {:induction false} PayloadLength(t: seq<bv8>, p: int, q: nat, m: nat)
    requires 3 <= p && m < p && |t| == q * p + m
    ensures |Payload(t, p)| == q * (p - 2) + (if m > 2 then m - 2 else 0)
    decreases q
  {
    if q == 0 {
    } else {
      MulStep(q - 1, p);
      MulStep(q - 1, p - 2);
      assert |t| == (q - 1) * p + p + m;
      PayloadLength(t[p..], p, q - 1, m);
    }
  }

  /** An independent reading of Payload: byte `k` of packet `q` survives, in order, exactly
      when it is not one of the two status bytes. */
  lemma {:induction false} PayloadAt(t: seq<bv8>, p: int, q: nat, k: nat)
    requires 3 <= p && 2 <= k < p && q * p + k < |t|
    ensures var i := q * (p - 2) + k - 2;
            0 <= i < |Payload(t, p)| && Payload(t, p)[i] == t[q * p + k]
    decreases q
  {
    if q == 0 {
    } else {
      MulStep(q - 1, p);
      MulStep(q - 1, p - 2);
      var rest, j, i := t[p..], (q - 1) * p + k, (q - 1) * (p - 2) + k - 2;
      assert q * p + k == p + j && q * (p - 2) + k - 2 == p - 2 + i;
      PayloadAt(rest, p, q - 1, k);
      PayloadSplits(t, p, i, j);
    }
  }

  lemma PayloadSplits(t: seq<bv8>, p: int, i: nat, j: nat)
    requires 3 <= p < |t| && i < |Payload(t[p..], p)| && j < |t| - p
    ensures p - 2 + i < |Payload(t, p)| && Payload(t, p)[p - 2 + i] == Payload(t[p..], p)[i]
    ensures t[p..][j] == t[p + j]
  {
    assert Payload(t, p) == t[2..p] + Payload(t[p..], p);
  }

  /** One more packet (or the last, shorter one) of a transfer. */
  lemma PayloadStep(t: seq<bv8>, p: int, q: nat, m: nat)
    requires 3 <= p && 2 < m <= p && q * p + m <= |t|
    ensures Payload(t[..q * p + m], p) == Payload(t[..q * p], p) + t[q * p + 2..q * p + m]
  {
    assert t[..q * p + m] == t[..q * p] + t[q * p..q * p + m];
    PayloadAppend(t[..q * p], t[q * p..q * p + m], p, q);
  }

  /** The payload of the first packet stands where it is. */
  lemma PayloadOne(b: seq<bv8>, t: seq<bv8>, p: int)
    requires 3 <= p <= |t| <= |b| && b[..|t|] == t
    ensures b[2..p] == Payload(t[..p], p)
  {
    assert Payload(t[..p], p) == t[..p][2..];
    assert forall k :: 2 <= k < p ==> b[k] == t[k];
  }

  lemma PacketFits(i: nat, chunks: nat, p: nat)
    requires i < chunks
    ensures i * p + p <= chunks * p
  {
    assert chunks * p == (chunks - 1 - i) * p + (i + 1) * p;
  }

  /** After `i` packets the next one starts at `src`, and its payload goes `dst` bytes behind the
      status bytes of the first. */
  ghost predicate Slid(i: nat, p: nat, src: nat, dst: nat)
  {
    src == i * p && dst == i * (p - 2) && dst + 2 * i == src
  }

  /** So many bytes are in so many full packets. */
  ghost predicate InFull(chunks: nat, p: nat, full: nat)
  {
    full == chunks * p
  }

  lemma FirstSlid(chunks: nat, full: nat, p: nat)
    requires 3 <= p && 1 <= chunks && InFull(chunks, p, full)
    ensures Slid(1, p, p, p - 2) && p <= full
  {
    PacketFits(0, chunks, p);
  }

  lemma NextSlides(i: nat, chunks: nat, full: nat, p: nat, src: nat, dst: nat)
    requires 3 <= p && i < chunks && Slid(i, p, src, dst) && InFull(chunks, p, full)
    ensures Slid(i + 1, p, src + p, dst + (p - 2)) && src + p <= full
  {
    PacketFits(i, chunks, p);
    MulStep(i, p);
    MulStep(i, p - 2);
  }

  lemma AllSlid(i: nat, p: nat, src: nat, dst: nat, full: nat)
    requires 3 <= p && 1 <= i && Slid(i, p, src, dst) && InFull(i, p, full)
    ensures src == full && 0 < dst
  {
    MulStep(i - 1, p - 2);
  }

  /** A last packet with nothing but status bytes adds nothing. */
  lemma PayloadTail(t: seq<bv8>, p: nat, i: nat, src: nat, dst: nat)
    requires 3 <= p && Slid(i, p, src, dst) && src <= |t| <= src + 2
    ensures Payload(t, p) == Payload(t[..src], p)
  {
    assert t == t[..src] + t[src..];
    PayloadAppend(t[..src], t[src..], p, i);
  }

  lemma PayloadShort(t: seq<bv8>, p: int)
    requires 2 < |t| <= p
    ensures Payload(t, p) == t[2..]
  {
  }

  lemma NextPayload(t: seq<bv8>, p: nat, i: nat, m: nat, src: nat, dst: nat)
    requires 3 <= p && 2 < m <= p && 1 <= i && Slid(i, p, src, dst) && src + m <= |t|
    ensures Payload(t[..src + m], p) == Payload(t[..src], p) + t[src + 2..src + m]
    ensures (p - 2) * i == dst && p * i == src && dst + 2 <= src
  {
    PayloadStep(t, p, i, m);
  }

  /** What one call does: the return code, the bytes it puts into the caller's buffer, the
      bytes it leaves for the next call, and the transfers the device has still to do. */
  datatype Outcome = Outcome(ret: int, copied: seq<bv8>, left: seq<bv8>, usb: seq<Transfer>)

  /** The synchronous call, with `left` the bytes already waiting in the read buffer. */
  function Read(left: seq<bv8>, usb: seq<Transfer>, size: nat, p: int): (o: Outcome)
    requires 3 <= p
    ensures |o.usb| <= |usb|
  {
    if size <= |left| then Outcome(size, left[..size], left[size..], usb)
    else Fill(left, usb, size, p)
  }

  function Fill(got: seq<bv8>, usb: seq<Transfer>, size: nat, p: int): (o: Outcome)
    requires 3 <= p && |got| < size
    ensures |o.usb| <= |usb|
    ensures |got| <= |o.copied| <= size && o.copied[..|got|] == got
    decreases |usb|
  {
    if usb == [] then Outcome(|got|, got, [], [])
    else match usb[0]
      case Failed(code, _) => Outcome(code, got, [], usb[1..])
      case Data(t) =>
        var all := got + Payload(t, p);
        if |t| <= 2 then Outcome(|got|, got, [], usb[1..])
        else if |all| < size then Fill(all, usb[1..], size, p)
        else Outcome(size, all[..size], all[size..], usb[1..])
  }

  /** What a series of calls did: the bytes that went into the callers' buffers, those that a
      non-negative return code told the caller about, and the state afterwards. */
  datatype History = History(copied: seq<bv8>, reported: seq<bv8>, left: seq<bv8>, usb: seq<Transfer>)

  /** The bytes that the return code of one call tells the caller about. */
  function Told(o: Outcome): (r: seq<bv8>)
    ensures |r| <= |o.copied|
  {
    if 0 <= o.ret <= |o.copied| then o.copied[..o.ret] else []
  }

  function Run(left: seq<bv8>, usb: seq<Transfer>, sizes: seq<nat>, p: int): (h: History)
    requires 3 <= p
    ensures |h.usb| <= |usb|
    decreases |sizes|
  {
    if sizes == [] then History([], [], left, usb)
    else
      var o := Read(left, usb, sizes[0], p);
      var h := Run(o.left, o.usb, sizes[1..], p);
      History(o.copied + h.copied, Told(o) + h.reported, h.left, h.usb)
  }

  ghost predicate AllData(ts: seq<Transfer>) {
    forall i :: 0 <= i < |ts| ==> ts[i].Data?
  }

  /** `copied` and `left` account for `before` and the payload of the transfers that were used up
      and did not fail. */
  ghost predicate Conserved(before: seq<bv8>, usb: seq<Transfer>, copied: seq<bv8>, left: seq<bv8>, rest: seq<Transfer>, p: int)
    requires 3 <= p
  {
    var used := |usb| - |rest|;
    0 <= used && rest == usb[used..] && copied + left == before + Regarded(usb[..used], p)
  }

  lemma NothingUsed(before: seq<bv8>, usb: seq<Transfer>, copied: seq<bv8>, left: seq<bv8>, p: int)
    requires 3 <= p && before == copied + left
    ensures Conserved(before, usb, copied, left, usb, p)
  {
    hide Payload;
    assert usb[..0] == [] && usb[0..] == usb;
    assert Regarded([], p) == [];
    assert before + [] == before;
  }

  /** One call conserves the stream: what it hands out and what it keeps are what was there
      before and the payload of the transfers it used up and that did not fail. Its return code
      counts the bytes handed out, unless the last transfer failed. */
  lemma {:induction false} FillConserves(got: seq<bv8>, usb: seq<Transfer>, size: nat, p: int)
    requires 3 <= p && |got| < size
    ensures var o := Fill(got, usb, size, p);
            && Conserved(got, usb, o.copied, o.left, o.usb, p)
            && (AllData(usb[..|usb| - |o.usb|]) ==> o.ret == |o.copied|)
    decreases |usb|
  {
    hide Payload, Conserved, Regarded;
    if usb == [] {
      NothingUsed(got, usb, got, [], p);
    } else if usb[0].Data? {
      var t := usb[0].bytes;
      var all := got + Payload(t, p);
      if |t| > 2 && |all| < size {
        FillConserves(all, usb[1..], size, p);
        var o := Fill(got, usb, size, p);
        var used := |usb| - |o.usb|;
        OneMore(got, usb, o.copied, o.left, o.usb, p);
        assert usb[..used][1..] == usb[1..][..used - 1];
        assert AllData(usb[..used]) ==> AllData(usb[..used][1..]);
      } else {
        NothingIn(t, p);
        var o := Fill(got, usb, size, p);
        NothingUsed(all, usb[1..], o.copied, o.left, p);
        OneMore(got, usb, o.copied, o.left, usb[1..], p);
      }
    } else {
      OneFailed(got, usb, p);
      assert !usb[..1][0].Data?;
    }
  }

  lemma NothingIn(t: seq<bv8>, p: int)
    requires 3 <= p
    ensures |t| <= 2 ==> Payload(t, p) == []
  {
  }

  lemma OneMore(got: seq<bv8>, usb: seq<Transfer>, copied: seq<bv8>, left: seq<bv8>, rest: seq<Transfer>, p: int)
    requires 3 <= p && usb != [] && usb[0].Data?
    requires Conserved(got + Payload(usb[0].bytes, p), usb[1..], copied, left, rest, p)
    ensures Conserved(got, usb, copied, left, rest, p)
  {
    hide Payload;
    var used := |usb| - |rest|;
    var x, y := Payload(usb[0].bytes, p), Regarded(usb[1..][..used - 1], p);
    assert usb[..used][1..] == usb[1..][..used - 1];
    assert usb[..used][0] == usb[0];
    assert (got + x) + y == got + (x + y);
  }

  lemma OneFailed(got: seq<bv8>, usb: seq<Transfer>, p: int)
    requires 3 <= p && usb != [] && usb[0].Failed?
    ensures Conserved(got, usb, got, [], usb[1..], p)
  {
    hide Payload;
    assert usb[..1][0] == usb[0] && usb[..1][1..] == [];
    assert Regarded([], p) == [];
    assert Regarded(usb[..1], p) == [] + [];
    assert got + [] == got;
  }

  lemma {:induction false} RegardedAppend(a: seq<Transfer>, b: seq<Transfer>, p: int)
    requires 3 <= p
    ensures Regarded(a + b, p) == Regarded(a, p) + Regarded(b, p)
  {
    if a == [] {
      assert a + b == b;
    } else {
      assert (a + b)[1..] == a[1..] + b;
      RegardedAppend(a[1..], b, p);
    }
  }

  lemma ReadConserves(left: seq<bv8>, usb: seq<Transfer>, size: nat, p: int)
    requires 3 <= p
    ensures var o := Read(left, usb, size, p);
            && Conserved(left, usb, o.copied, o.left, o.usb, p)
            && (AllData(usb[..|usb| - |o.usb|]) ==> o.ret == |o.copied|)
  {
    hide Fill, Regarded, Payload, AllData;
    if size > |left| {
      FillConserves(left, usb, size, p);
    } else {
      NothingUsed(left, usb, left[..size], left[size..], p);
    }
  }

  lemma ConservedTrans(a: seq<bv8>, u: seq<Transfer>, c1: seq<bv8>, b: seq<bv8>, v: seq<Transfer>,
                       c2: seq<bv8>, d: seq<bv8>, w: seq<Transfer>, p: int)
    requires 3 <= p && Conserved(a, u, c1, b, v, p) && Conserved(b, v, c2, d, w, p)
    ensures Conserved(a, u, c1 + c2, d, w, p)
  {
    var one, more := |u| - |v|, |v| - |w|;
    RegardedAppend(u[..one], v[..more], p);
    assert u[..one + more] == u[..one] + v[..more];
    var x, y := Regarded(u[..one], p), Regarded(v[..more], p);
    assert (c1 + c2) + d == c1 + (c2 + d) == c1 + (b + y) == (c1 + b) + y == (a + x) + y == a + (x + y);
  }

  lemma {:induction false} RunConserves(left: seq<bv8>, usb: seq<Transfer>, sizes: seq<nat>, p: int)
    requires 3 <= p
    ensures var h := Run(left, usb, sizes, p);
            Conserved(left, usb, h.copied, h.left, h.usb, p)
    decreases |sizes|
  {
    if sizes == [] {
      NothingUsed(left, usb, [], left, p);
    } else {
      var o := Read(left, usb, sizes[0], p);
      var h := Run(o.left, o.usb, sizes[1..], p);
      ReadConserves(left, usb, sizes[0], p);
      RunConserves(o.left, o.usb, sizes[1..], p);
      ConservedTrans(left, usb, o.copied, o.left, o.usb, h.copied, h.left, h.usb, p);
    }
  }

  /** Over any series of calls, of any sizes: what goes into the callers' buffers and what is kept
      is the payload that arrived, nothing duplicated or reordered and nothing missing, if and only
      if no failed transfer brought any. What such a transfer brought is all that is missing. */
  lemma ReadConservation(left: seq<bv8>, usb: seq<Transfer>, sizes: seq<nat>, p: int)
    requires 3 <= p
    ensures var h := Run(left, usb, sizes, p);
            var used := usb[..|usb| - |h.usb|];
            && h.usb == usb[|used|..] && h.copied + h.left == left + Regarded(used, p)
            && (h.copied + h.left == left + Stripped(used, p) <==> NothingLost(used))
  {
    var h := Run(left, usb, sizes, p);
    var used := usb[..|usb| - |h.usb|];
    RunConserves(left, usb, sizes, p);
    LostExactly(used, p);
    assert |left + Regarded(used, p)| == |left + Stripped(used, p)| <==> NothingLost(used);
  }

  /** A transfer that times out with one byte of payload: the byte arrived, and no call gets it. */
  lemma FailedReadLoses(p: int, size: nat)
    requires 3 <= p && 0 < size
    ensures var usb := [Failed(-7, [0, 0, 1])];
            var h := Run([], usb, [size], p);
            Stripped(usb, p) == [1] && h.copied + h.left == [] && h.usb == []
  {
    var usb := [Failed(-7, [0, 0, 1])];
    assert Payload(usb[0].bytes, p) == [1];
    assert usb[1..] == [];
    assert Fill([], usb, size, p) == Outcome(-7, [], [], []);
    assert [size][1..] == [];
  }

  // ---------- what the callers are told ----------

  /** A call that used up `used` broke off with something in the caller's buffer: its last transfer
      failed, and there were bytes waiting or other transfers before it. */
  predicate BrokeOff(left: seq<bv8>, used: seq<Transfer>)
  {
    used != [] && used[|used| - 1].Failed? && (left != [] || |used| > 1)
  }

  predicate NoneBrokeOff(left: seq<bv8>, usb: seq<Transfer>, sizes: seq<nat>, p: int)
    requires 3 <= p
    decreases |sizes|
  {
    sizes == [] ||
    var o := Read(left, usb, sizes[0], p);
    !BrokeOff(left, usb[..|usb| - |o.usb|]) && NoneBrokeOff(o.left, o.usb, sizes[1..], p)
  }

  lemma SomethingIn(t: seq<bv8>, p: int)
    requires 3 <= p && |t| > 2
    ensures Payload(t, p) != []
  {
  }

  lemma BrokeOffLater(got: seq<bv8>, more: seq<bv8>, used: seq<Transfer>)
    requires more != [] && used != [] && used[0].Data?
    ensures BrokeOff(got, used) <==> BrokeOff(got + more, used[1..])
  {
  }

  lemma {:induction false} FillTold(got: seq<bv8>, usb: seq<Transfer>, size: nat, p: int)
    requires 3 <= p && |got| < size
    ensures var o := Fill(got, usb, size, p);
            Told(o) == o.copied <==> !BrokeOff(got, usb[..|usb| - |o.usb|])
    decreases |usb|
  {
    hide Payload;
    if usb == [] {
    } else if usb[0].Data? {
      var t := usb[0].bytes;
      var all := got + Payload(t, p);
      if |t| > 2 && |all| < size {
        FillTold(all, usb[1..], size, p);
        var o := Fill(got, usb, size, p);
        assert o == Fill(all, usb[1..], size, p);
        var used := |usb| - |o.usb|;
        assert usb[..used][1..] == usb[1..][..used - 1];
        SomethingIn(t, p);
        BrokeOffLater(got, Payload(t, p), usb[..used]);
      }
    }
  }

  lemma CallTold(left: seq<bv8>, usb: seq<Transfer>, size: nat, p: int)
    requires 3 <= p
    ensures var o := Read(left, usb, size, p);
            Told(o) == o.copied <==> !BrokeOff(left, usb[..|usb| - |o.usb|])
  {
    if size > |left| {
      FillTold(left, usb, size, p);
    }
  }

  /** The return codes tell the callers about every byte in their buffers if and only if no call
      broke off with something in the buffer. */
  lemma {:induction false} ReportedExactly(left: seq<bv8>, usb: seq<Transfer>, sizes: seq<nat>, p: int)
    requires 3 <= p
    ensures var h := Run(left, usb, sizes, p);
            |h.reported| <= |h.copied| && (h.reported == h.copied <==> NoneBrokeOff(left, usb, sizes, p))
    decreases |sizes|
  {
    hide Read, BrokeOff, Told;
    if sizes != [] {
      var o := Read(left, usb, sizes[0], p);
      var h := Run(o.left, o.usb, sizes[1..], p);
      CallTold(left, usb, sizes[0], p);
      ReportedExactly(o.left, o.usb, sizes[1..], p);
      BothTold(Told(o), h.reported, o.copied, h.copied);
    }
  }

  lemma BothTold(a: seq<bv8>, b: seq<bv8>, c: seq<bv8>, d: seq<bv8>)
    requires |a| <= |c| && |b| <= |d|
    ensures a + b == c + d <==> a == c && b == d
  {
    if a + b == c + d {
      assert a == (a + b)[..|a|] == (c + d)[..|c|] == c;
      assert b == (a + b)[|a|..] == (c + d)[|c|..] == d;
    }
  }

  /** For the callers, who know of the bytes that a return code tells them about: no payload that
      arrived is lost if and only if no failed transfer brought any and no call broke off with
      something in the buffer. */
  lemma CallersLoseNothing(left: seq<bv8>, usb: seq<Transfer>, sizes: seq<nat>, p: int)
    requires 3 <= p
    ensures var h := Run(left, usb, sizes, p);
            var used := usb[..|usb| - |h.usb|];
            h.reported + h.left == left + Stripped(used, p) <==> NothingLost(used) && NoneBrokeOff(left, usb, sizes, p)
  {
    hide Run, Regarded, Stripped, NothingLost, NoneBrokeOff;
    var h := Run(left, usb, sizes, p);
    var used := usb[..|usb| - |h.usb|];
    ReadConservation(left, usb, sizes, p);
    ReportedExactly(left, usb, sizes, p);
    LostExactly(used, p);
    SameStream(h.reported, h.copied, h.left, left, Regarded(used, p), Stripped(used, p));
  }

  lemma SameStream(told: seq<bv8>, copied: seq<bv8>, kept: seq<bv8>, before: seq<bv8>, regarded: seq<bv8>, arrived: seq<bv8>)
    requires copied + kept == before + regarded && |told| <= |copied| && |regarded| <= |arrived|
    requires |regarded| == |arrived| ==> regarded == arrived
    ensures told + kept == before + arrived <==> told == copied && regarded == arrived
  {
    assert |copied| + |kept| == |copied + kept| == |before + regarded| == |before| + |regarded|;
    if told + kept == before + arrived {
      assert |told| + |kept| == |told + kept| == |before + arrived| == |before| + |arrived|;
      assert told == (told + kept)[..|told|] == (copied + kept)[..|told|] == copied;
    }
  }

  /** A byte that arrived in time, followed by a transfer that times out: it is in the buffer, but
      the return code is the error and does not tell of it. */
  lemma BreakingOffHides(p: int)
    requires 3 <= p
    ensures var usb := [Data([0, 0, 1]), Failed(-7, [])];
            var h := Run([], usb, [2], p);
            NothingLost(usb) && Stripped(usb, p) == [1] && h.usb == []
            && h.copied == [1] && h.reported == [] && h.left == []
  {
    var usb := [Data([0, 0, 1]), Failed(-7, [])];
    assert Payload([0, 0, 1], p) == [1] && usb[1..] == [Failed(-7, [])] && usb[1..][1..] == [];
    assert Stripped(usb[1..], p) == [];
    assert Fill([1], usb[1..], 2, p) == Outcome(-7, [1], [], []);
    assert Fill([], usb, 2, p) == Outcome(-7, [1], [], []);
    assert [2][1..] == [];
  }

  /** While no transfer fails, no call breaks off, and so every byte is told of. */
  lemma {:induction false} NoFailureNoneBroken(left: seq<bv8>, usb: seq<Transfer>, sizes: seq<nat>, p: int)
    requires 3 <= p
    requires AllData(usb[..|usb| - |Run(left, usb, sizes, p).usb|])
    ensures var h := Run(left, usb, sizes, p);
            NoneBrokeOff(left, usb, sizes, p) && h.reported == h.copied
    decreases |sizes|
  {
    hide Read, Conserved, AllData;
    ReportedExactly(left, usb, sizes, p);
    if sizes != [] {
      var o := Read(left, usb, sizes[0], p);
      var h := Run(o.left, o.usb, sizes[1..], p);
      ReadConserves(left, usb, sizes[0], p);
      RunConserves(o.left, o.usb, sizes[1..], p);
      AllDataParts(usb, o.usb, h.usb, left, o.copied, o.left, h.copied, h.left, p);
      NoFailureNoneBroken(o.left, o.usb, sizes[1..], p);
      NotBroken(left, usb[..|usb| - |o.usb|]);
    }
  }

  lemma NotBroken(left: seq<bv8>, used: seq<Transfer>)
    requires AllData(used)
    ensures !BrokeOff(left, used)
  {
  }

  /** When no transfer fails between `u` and `w`, none does before `v` and none after. */
  lemma AllDataParts(u: seq<Transfer>, v: seq<Transfer>, w: seq<Transfer>,
                     a: seq<bv8>, c: seq<bv8>, b: seq<bv8>, c2: seq<bv8>, d: seq<bv8>, p: int)
    requires 3 <= p && Conserved(a, u, c, b, v, p) && Conserved(b, v, c2, d, w, p)
    requires AllData(u[..|u| - |w|])
    ensures AllData(u[..|u| - |v|]) && AllData(v[..|v| - |w|])
  {
    hide Regarded;
    var one, more := |u| - |v|, |v| - |w|;
    var all := u[..one + more];
    assert u[..one] == all[..one] && v[..more] == all[one..];
  }

  /** Copies within one array as memmove does, whether or not the ranges overlap. */
  method Memmove(a: array<bv8>, dst: nat, src: nat, n: nat)
    requires dst + n <= a.Length && src + n <= a.Length
    modifies a
    ensures a[dst..dst + n] == old(a[src..src + n])
    ensures forall k :: 0 <= k < a.Length && !(dst <= k < dst + n) ==> a[k] == old(a[k])
  {
    forall k | 0 <= k < n {
      a[dst + k] := a[src + k];
    }
  }

  method Memcpy(to: array<bv8>, dst: nat, from: array<bv8>, src: nat, n: nat)
    requires to != from && dst + n <= to.Length && src + n <= from.Length
    modifies to
    ensures to[dst..dst + n] == from[src..src + n]
    ensures forall k :: 0 <= k < to.Length && !(dst <= k < dst + n) ==> to[k] == old(to[k])
  {
    forall k | 0 <= k < n {
      to[dst + k] := from[src + k];
    }
  }

  /** Copies `n` bytes in behind the `got` that are there. */
  method Append(to: array<bv8>, got: nat, from: array<bv8>, src: nat, n: nat)
    requires to != from && got + n <= to.Length && src + n <= from.Length
    modifies to
    ensures to[..got + n] == old(to[..got]) + from[src..src + n]
    ensures forall k :: got + n <= k < to.Length ==> to[k] == old(to[k])
  {
    Memcpy(to, got, from, src, n);
    assert to[..got] == old(to[..got]);
    assert to[..got + n] == to[..got] + to[got..got + n];
  }

  class Context {
    const readbuffer: array<bv8>
    const packetSize: nat
    var offset: nat
    var remaining: nat
    // What the device will answer, in order. When it has nothing more, a transfer times out
    // with no bytes.
    var usb: seq<Transfer>

    ghost predicate Valid()
      reads this
    {
      && offset + remaining <= readbuffer.Length
      && forall i :: 0 <= i < |usb| ==> |usb[i].bytes| <= readbuffer.Length
    }

    ghost function Left(): seq<bv8>
      requires offset + remaining <= readbuffer.Length
      reads this, readbuffer
    {
      readbuffer[offset..offset + remaining]
    }

    /** The call returned `ret` and left buffer and device as `o` says. */
    ghost predicate Delivered(o: Outcome, ret: int, size: nat, now: seq<bv8>, before: seq<bv8>)
      requires offset + remaining <= readbuffer.Length
      reads this, readbuffer
    {
      && ret == o.ret && Left() == o.left && usb == o.usb
      && |o.copied| <= size <= |before| == |now| && now[..|o.copied|] == o.copied
      && forall k :: |o.copied| <= k < |now| ==> now[k] == before[k]
    }

    /** One bulk transfer into the read buffer: the return code and the number of bytes. */
    method BulkTransfer() returns (ret: int, n: nat)
      requires Valid()
      modifies this`usb, readbuffer
      ensures Valid()
      ensures old(usb) == [] ==> ret == 0 && n == 0 && usb == []
      ensures old(usb) != [] ==> usb == old(usb)[1..]
      ensures old(usb) != [] ==>
                && ret == (if old(usb)[0].Failed? then old(usb)[0].code else 0)
                && n == |old(usb)[0].bytes| <= readbuffer.Length && readbuffer[..n] == old(usb)[0].bytes
    {
      ret, n := 0, 0;
      if usb != [] {
        var t := usb[0];
        usb := usb[1..];
        n := |t.bytes|;
        forall k | 0 <= k < n {
          readbuffer[k] := t.bytes[k];
        }
        if t.Failed? {
          ret := t.code;
        }
      }
    }

    /** Moves `n` bytes down to `to`, right behind the bytes from 2 on that stay. */
    method MoveDown(to: nat, from: nat, n: nat, ghost t: seq<bv8>)
      requires 2 <= to <= from && from + n <= |t| <= readbuffer.Length
      requires forall k :: from <= k < |t| ==> readbuffer[k] == t[k]
      modifies readbuffer
      ensures forall k :: from + n <= k < |t| ==> readbuffer[k] == t[k]
      ensures readbuffer[2..to + n] == old(readbuffer[2..to]) + t[from..from + n]
    {
      Memmove(readbuffer, to, from, n);
      assert readbuffer[2..to] == old(readbuffer[2..to]);
      assert readbuffer[to..to + n] == t[from..from + n];
      assert readbuffer[2..to + n] == readbuffer[2..to] + readbuffer[to..to + n];
    }

    /** Slides the payload of packet `i`, which is `m` bytes long, down behind the payload of
        the packets before it. */
    method SlidePacket(i: nat, m: nat, ghost t: seq<bv8>, ghost src: nat, ghost dst: nat)
      requires 3 <= packetSize && offset == 2 && 2 < m <= packetSize
      requires Slid(i, packetSize, src, dst)
      requires src + m <= |t| <= readbuffer.Length && 1 <= i
      requires forall k :: src <= k < |t| ==> readbuffer[k] == t[k]
      requires readbuffer[2..2 + dst] == Payload(t[..src], packetSize)
      modifies readbuffer
      ensures forall k :: src + m <= k < |t| ==> readbuffer[k] == t[k]
      ensures readbuffer[2..dst + m] == Payload(t[..src + m], packetSize)
    {
      hide Payload, Slid;
      NextPayload(t, packetSize, i, m, src, dst);
      var to := offset + (packetSize - 2) * i;
      var from := offset + packetSize * i;
      assert to == 2 + dst && from == 2 + src;
      MoveDown(to, from, m - 2, t);
      assert readbuffer[2..dst + m] == old(readbuffer[2..2 + dst]) + t[src + 2..src + m];
    }

    /** The loop over the full packets after the first. */
    method SlidePackets(chunks: nat, ghost full: nat, ghost t: seq<bv8>) returns (i: nat, ghost src: nat, ghost dst: nat)
      requires 3 <= packetSize && offset == 2 && 1 <= chunks && InFull(chunks, packetSize, full) && full <= |t|
      requires |t| <= readbuffer.Length && readbuffer[..|t|] == t
      modifies readbuffer
      ensures i == chunks && Slid(i, packetSize, src, dst) && 0 < dst && dst + 2 * i == src == full
      ensures forall k :: src <= k < |t| ==> readbuffer[k] == t[k]
      ensures readbuffer[2..2 + dst] == Payload(t[..src], packetSize)
    {
      hide Payload, Slid, InFull;
      i, src, dst := 1, packetSize, packetSize - 2;
      FirstSlid(chunks, full, packetSize);
      PayloadOne(readbuffer[..], t, packetSize);
      while i < chunks
        invariant 1 <= i <= chunks && dst + 2 * i == src <= |t|
        invariant Slid(i, packetSize, src, dst)
        invariant forall k :: src <= k < |t| ==> readbuffer[k] == t[k]
        invariant readbuffer[2..2 + dst] == Payload(t[..src], packetSize)
      {
        NextSlides(i, chunks, full, packetSize, src, dst);
        SlidePacket(i, packetSize, t, src, dst);
        i, src, dst := i + 1, src + packetSize, dst + (packetSize - 2);
      }
      AllSlid(i, packetSize, src, dst, full);
    }

    /** How many full packets `n` bytes make, and how many bytes are left over. */
    method Packets(n: nat) returns (chunks: nat, rest: nat, ghost full: nat)
      requires 0 < packetSize
      ensures n == full + rest && rest < packetSize && InFull(chunks, packetSize, full)
      ensures n >= packetSize ==> 1 <= chunks
    {
      chunks := n / packetSize;
      rest := n % packetSize;
      full := chunks * packetSize;
    }

    /** Drops the two status bytes of every packet of the `n` bytes just received, by sliding
        the later packets down over them; the payload ends up right behind `offset`. */
    method StripStatus(n: nat) returns (len: nat)
      requires 3 <= packetSize && 2 < n <= readbuffer.Length && offset == 0
      modifies this`offset, readbuffer
      ensures offset == 2 && 0 < len && offset + len <= readbuffer.Length
      ensures readbuffer[offset..offset + len] == Payload(old(readbuffer[..n]), packetSize)
    {
      hide Payload, InFull;
      ghost var t := readbuffer[..n];
      var chunks, rest; ghost var full;
      chunks, rest, full := Packets(n);
      offset := offset + 2;
      len := n - 2;
      if len > packetSize - 2 {
        len := StripMany(chunks, rest, full, n, t);
      } else {
        PayloadShort(t, packetSize);
      }
    }

    /** More than one packet: `chunks` full ones and `rest` bytes of another. */
    method StripMany(chunks: nat, rest: nat, ghost full: nat, n: nat, ghost t: seq<bv8>) returns (len: nat)
      requires 3 <= packetSize < n && offset == 2 && 1 <= chunks && rest < packetSize
      requires InFull(chunks, packetSize, full) && |t| == n == full + rest <= readbuffer.Length && readbuffer[..n] == t
      modifies readbuffer
      ensures 0 < len && 2 + len <= readbuffer.Length && readbuffer[2..2 + len] == Payload(t, packetSize)
    {
      hide Payload, Slid, InFull;
      len := n - 2;
      var i; ghost var src, dst;
      i, src, dst := SlidePackets(chunks, full, t);
      if rest > 2 {
        SlidePacket(i, rest, t, src, dst);
        assert t[..n] == t;
        len := len - 2 * chunks;
        assert 2 + len == dst + rest;
      } else {
        PayloadTail(t, packetSize, i, src, dst);
        len := len - 2 * (chunks - 1) - rest;
        assert len == dst;
      }
    }

    /** Hands the caller as much of the `n` payload bytes at `offset` as still fits. */
    method Deliver(buf: array<bv8>, got: nat, size: nat, n: nat) returns (now: nat)
      requires got < size <= buf.Length && buf != readbuffer
      requires offset + n <= readbuffer.Length && remaining == 0
      modifies this`offset, this`remaining, buf
      ensures var all := old(buf[..got]) + old(readbuffer[offset..offset + n]);
              if |all| <= size then
                now == |all| && buf[..now] == all && offset == old(offset) && remaining == 0
              else
                && now == size && buf[..now] == all[..size]
                && offset + remaining == old(offset) + n && Left() == all[size..]
      ensures forall k :: now <= k < buf.Length ==> buf[k] == old(buf[k])
    {
      if got + n <= size {
        Append(buf, got, readbuffer, offset, n);
        now := got + n;
      } else {
        var part := size - got;
        assert (buf[..got] + readbuffer[offset..offset + n])[..size] == buf[..got] + readbuffer[offset..offset + part];
        assert (buf[..got] + readbuffer[offset..offset + n])[size..] == readbuffer[offset + part..offset + n];
        Append(buf, got, readbuffer, offset, part);
        offset := offset + part;
        remaining := n - part;
        now := got + part;
      }
    }

    /** One round of the synchronous reader: a transfer, stripped and delivered. The call is
        over when `done`; `n` is the payload length otherwise. */
    method Receive(buf: array<bv8>, got: nat, size: nat) returns (done: bool, ret: int, now: nat, n: nat)
      requires Valid() && 3 <= packetSize && got < size <= buf.Length && buf != readbuffer
      modifies this`offset, this`remaining, this`usb, readbuffer, buf
      ensures Valid()
      ensures done ==>
                Delivered(Fill(old(buf[..got]), old(usb), size, packetSize), ret, size, buf[..], old(buf[..]))
      ensures !done ==>
                && got < now < size && 0 < n && |usb| < |old(usb)|
                && Fill(buf[..now], usb, size, packetSize) == Fill(old(buf[..got]), old(usb), size, packetSize)
      ensures forall k :: size <= k < buf.Length ==> buf[k] == old(buf[k])
      ensures !done ==> forall k :: now <= k < buf.Length ==> buf[k] == old(buf[k])
    {
      done, ret, now := true, 0, got;
      remaining := 0;
      offset := 0;
      var code;
      code, n := BulkTransfer();
      if code < 0 {
        ret := code;
        return;
      }
      if n > 2 {
        n := StripStatus(n);
      } else {
        ret := got;
        return;
      }
      if n > 0 {
        now := Deliver(buf, got, size, n);
        ret := now;
        done := now == size;
      }
    }

    /** The loop of the synchronous reader, entered with `have` bytes delivered already. */
    method ReadMore(buf: array<bv8>, have: nat, size: nat) returns (ret: int)
      requires Valid() && 3 <= packetSize && have < size <= buf.Length && buf != readbuffer
      modifies this`offset, this`remaining, this`usb, readbuffer, buf
      ensures Valid()
      ensures Delivered(Fill(old(buf[..have]), old(usb), size, packetSize), ret, size, buf[..], old(buf[..]))
    {
      var got := have;
      var n: nat := 1;
      while got < size && n > 0
        invariant Valid() && have <= got < size && n > 0
        invariant Fill(buf[..got], usb, size, packetSize) == Fill(old(buf[..have]), old(usb), size, packetSize)
        invariant forall k :: got <= k < buf.Length ==> buf[k] == old(buf[k])
        decreases |usb|
      {
        var done;
        done, ret, got, n := Receive(buf, got, size);
        if done {
          return;
        }
      }
      assert false;
      ret := -127;
    }

    /** Hands out the first `size` of the bytes that wait. */
    method TakeFront(buf: array<bv8>, size: nat)
      requires Valid() && size <= remaining && size <= buf.Length && buf != readbuffer
      modifies this`offset, this`remaining, buf
      ensures Valid()
      ensures buf[..size] == old(Left())[..size] && Left() == old(Left())[size..]
      ensures forall k :: size <= k < buf.Length ==> buf[k] == old(buf[k])
    {
      Memcpy(buf, 0, readbuffer, offset, size);
      remaining := remaining - size;
      offset := offset + size;
      assert buf[..size] == old(readbuffer[offset..offset + size]);
    }

    /** Copies all the bytes that wait, and leaves the counters as they are. */
    method CopyLeft(buf: array<bv8>) returns (got: nat)
      requires Valid() && remaining <= buf.Length && buf != readbuffer
      modifies buf
      ensures got == remaining && buf[..got] == Left()
      ensures forall k :: got <= k < buf.Length ==> buf[k] == old(buf[k])
    {
      got := 0;
      if remaining != 0 {
        Memcpy(buf, 0, readbuffer, offset, remaining);
        got := got + remaining;
      }
    }

    method ReadData(buf: array<bv8>, size: nat) returns (ret: int)
      requires Valid() && size <= buf.Length && buf != readbuffer
      requires packetSize == 0 || 3 <= packetSize
      modifies this`offset, this`remaining, this`usb, readbuffer, buf
      ensures Valid()
      ensures packetSize == 0 ==> ret == -1 && Left() == old(Left()) && usb == old(usb) && buf[..] == old(buf[..])
      ensures packetSize != 0 ==>
                Delivered(Read(old(Left()), old(usb), size, packetSize), ret, size, buf[..], old(buf[..]))
    {
      if packetSize == 0 {
        return -1;
      }
      if size <= remaining {
        TakeFront(buf, size);
        return size;
      }
      var got := CopyLeft(buf);
      ret := ReadMore(buf, got, size);
    }
  }
}
