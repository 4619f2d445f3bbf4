/**
 The streaming reader of libftdi: the callback cuts a completed transfer into packets and
 passes the payload of each, without copying, to the user's callback.
 */
module FtdiStream {
  import opened FtdiRead

  /** One call of the user's callback: where its bytes start in the transfer, and how many it
      is told there are. */
  datatype Block = Block(start: int, len: int)

  /** The blocks for `length` bytes that start at `at`. */
  function Blocks(at: int, length: nat, p: int): (bs: seq<Block>)
    requires 3 <= p
    decreases length
  {
    if length == 0 then []
    else
      var packet := if length > p then p else length;
      [Block(at + 2, packet - 2)] + Blocks(at + packet, length - packet, p)
  }

  /** The bytes that the blocks select; a block of negative length selects none. */
  function Selected(t: seq<bv8>, bs: seq<Block>): (r: seq<bv8>)
  {
    if bs == [] then []
    else
      var b := bs[0];
      (if 0 <= b.start && 0 <= b.len && b.start + b.len <= |t| then t[b.start..b.start + b.len] else [])
      + Selected(t, bs[1..])
  }

  function Total(bs: seq<Block>): (n: int)
  {
    if bs == [] then 0 else bs[0].len + Total(bs[1..])
  }

  // ---------- the stream ----------

  const ERROR_IO := -1

  /** A call of the user's callback and its answer: with a block of data, or with the progress. */
  datatype Call = Passed(block: Block, answer: int) | Progress(answer: int)

  /** The calls for the packets of one transfer. */
  function Answered(bs: seq<Block>, answers: seq<int>): (calls: seq<Call>)
    requires |answers| == |bs|
    ensures |calls| == |bs|
  {
    seq(|bs|, i requires 0 <= i < |bs| => Passed(bs[i], answers[i]))
  }

  lemma NextAnswered(bs: seq<Block>, answers: seq<int>, i: nat)
    requires |answers| == |bs| && i < |bs|
    ensures Answered(bs, answers)[..i + 1] == Answered(bs, answers)[..i] + [Passed(bs[i], answers[i])]
  {
  }

  /** What happens while the stream runs. A transfer ends: it brought `length` bytes, `answers` are
      what the callback says to its packets and `resubmitted` is what comes of submitting it again,
      or it did not complete. Or the library has handled the ends that there were, returns `err`,
      and the callback is told the progress, once or not at all. */
  datatype Event =
    | Completed(length: nat, answers: seq<int>, resubmitted: int)
    | Broken
    | Polled(err: int, progress: seq<int>)

  /** The transfers that the device has, the calls so far, the fields of the stream, and whether
      the loop has been left; the result is then what the caller gets. */
  datatype Stream = Stream(inFlight: nat, calls: seq<Call>, activity: nat, result: int, over: bool)

  function Begun(numTransfers: nat): (s: Stream)
  {
    Stream(numTransfers, [], 1, 0, false)
  }

  /** The answer for the last packet is not zero: the transfer is freed and not submitted again. */
  predicate Freed(answers: seq<int>) {
    answers != [] && answers[|answers| - 1] != 0
  }

  /** The possible events, with packets of `p` bytes and transfers of up to `room` bytes. */
  predicate Enabled(s: Stream, e: Event, p: nat, room: nat)
    requires 3 <= p
  {
    !s.over &&
    match e
    case Completed(length, answers, _) => s.inFlight > 0 && length <= room && |answers| == |Blocks(0, length, p)|
    case Broken => s.inFlight > 0
    case Polled(_, progress) => |progress| <= 1
  }

  function Ended(s: Stream, length: nat, answers: seq<int>, resubmitted: int, p: nat): (t: Stream)
    requires 3 <= p && s.inFlight > 0 && |answers| == |Blocks(0, length, p)|
  {
    var calls := s.calls + Answered(Blocks(0, length, p), answers);
    if Freed(answers) then Stream(s.inFlight - 1, calls, s.activity + 1, s.result, false)
    else Stream(if resubmitted == 0 then s.inFlight else s.inFlight - 1, calls, s.activity + 1, resubmitted, false)
  }

  function Handled(s: Stream, err: int, progress: seq<int>): (t: Stream)
  {
    var result := if s.activity == 0 then 1 else if s.result != 0 then s.result else err;
    Stream(s.inFlight, s.calls + seq(|progress|, i requires 0 <= i < |progress| => Progress(progress[i])), 0, result, result != 0)
  }

  function Apply(s: Stream, e: Event, p: nat, room: nat): (t: Stream)
    requires 3 <= p && Enabled(s, e, p, room)
  {
    match e
    case Completed(length, answers, resubmitted) => Ended(s, length, answers, resubmitted, p)
    case Broken => Stream(s.inFlight - 1, s.calls, s.activity + 1, ERROR_IO, false)
    case Polled(err, progress) => Handled(s, err, progress)
  }

  /** A run: every event is possible where it happens. */
  predicate Possible(s: Stream, events: seq<Event>, p: nat, room: nat)
    requires 3 <= p
    decreases |events|
  {
    events == [] || (Enabled(s, events[0], p, room) && Possible(Apply(s, events[0], p, room), events[1..], p, room))
  }

  function After(s: Stream, events: seq<Event>, p: nat, room: nat): (t: Stream)
    requires 3 <= p && Possible(s, events, p, room)
    decreases |events|
  {
    if events == [] then s else After(Apply(s, events[0], p, room), events[1..], p, room)
  }

  class StreamState {
    const packetSize: nat
    var totalBytes: int
    var activity: nat
    var result: int
    // The calls that the user's callback got, and the number of transfers that the device has.
    var calls: seq<Call>
    var inFlight: nat

    ghost function Now(over: bool): (s: Stream)
      reads this
    {
      Stream(inFlight, calls, activity, result, over)
    }

    /** The end of a transfer, which brought `length` bytes if it was `completed`. `answers` are
        the results of the user's callback, one for each call, and `resubmitted` is that of the
        attempt to submit the transfer again. It is given up, not to come back, when `freed`. */
    method ReadStreamCb(completed: bool, length: nat, answers: seq<int>, resubmitted: int) returns (freed: bool)
      requires 3 <= packetSize && inFlight > 0 && (completed ==> |answers| == |Blocks(0, length, packetSize)|)
      modifies this
      ensures completed ==>
                && Now(false) == Ended(old(Now(false)), length, answers, resubmitted, packetSize)
                && totalBytes == old(totalBytes) + Total(Blocks(0, length, packetSize))
                && (freed <==> Freed(answers))
      ensures !completed ==>
                && Now(false) == Stream(old(inFlight) - 1, old(calls), old(activity) + 1, ERROR_IO, false)
                && totalBytes == old(totalBytes) && !freed
    {
      activity := activity + 1;
      inFlight := inFlight - 1;
      if !completed {
        result := ERROR_IO;
        return false;
      }
      freed := PassOn(length, answers);
      if !freed {
        result := resubmitted;
        if resubmitted == 0 {
          inFlight := inFlight + 1;
        }
      }
    }

    /** The loop over the packets: each is passed to the user's callback without its status. */
    method PassOn(length: nat, answers: seq<int>) returns (stop: bool)
      requires 3 <= packetSize && |answers| == |Blocks(0, length, packetSize)|
      modifies `calls, `totalBytes
      ensures calls == old(calls) + Answered(Blocks(0, length, packetSize), answers)
      ensures totalBytes == old(totalBytes) + Total(Blocks(0, length, packetSize))
      ensures stop <==> Freed(answers)
    {
      hide Answered;
      ghost var bs := Blocks(0, length, packetSize);
      var numPackets := PacketCount(length);
      CountIsLength(0, length, packetSize, numPackets);
      var ptr: int, left: nat, res := 0, length, 0;
      for i := 0 to numPackets
        invariant Blocks(ptr, left, packetSize) == bs[i..]
        invariant calls == old(calls) + Answered(bs, answers)[..i]
        invariant totalBytes + Total(bs[i..]) == old(totalBytes) + Total(bs)
        invariant res == if i == 0 then 0 else answers[i - 1]
      {
        var packetLen := left;
        if packetLen > packetSize {
          packetLen := packetSize;
        }
        var payloadLen := packetLen - 2;
        totalBytes := totalBytes + payloadLen;
        assert bs[i] == Block(ptr + 2, payloadLen) && bs[i..][1..] == bs[i + 1..];
        res := answers[i];
        calls := calls + [Passed(Block(ptr + 2, payloadLen), res)];
        NextAnswered(bs, answers, i);
        ptr := ptr + packetLen;
        left := left - packetLen;
      }
      stop := res != 0;
    }

    method PacketCount(length: nat) returns (n: nat)
      requires 3 <= packetSize
      ensures length <= n * packetSize < length + packetSize
    {
      n := (length + packetSize - 1) / packetSize;
    }

    /** What the loop does when the library returns. */
    method Poll(err: int, progress: seq<int>)
      requires |progress| <= 1
      modifies `result, `activity, `calls
      ensures Now(result != 0) == Handled(old(Now(false)), err, progress)
    {
      if result == 0 {
        result := err;
      }
      if activity == 0 {
        result := 1;
      } else {
        activity := 0;
      }
      if |progress| > 0 {
        calls := calls + [Progress(progress[0])];
      }
    }

    /** The loop of the stream, from where it stands through everything that happens. */
    method ReadStream(events: seq<Event>, room: nat) returns (over: bool)
      requires 3 <= packetSize && Possible(Now(false), events, packetSize, room)
      modifies this
      ensures Now(over) == After(old(Now(false)), events, packetSize, room)
    {
      hide Ended, Handled;
      ghost var goal := After(Now(false), events, packetSize, room);
      over := false;
      var k := 0;
      assert events[0..] == events;
      while !over && k < |events|
        invariant 0 <= k <= |events|
        invariant Possible(Now(over), events[k..], packetSize, room)
        invariant After(Now(over), events[k..], packetSize, room) == goal
        decreases |events| - k
      {
        k := HandleEnds(events, k, room, goal);
        if k < |events| {
          assert events[k..][0] == events[k] && events[k..][1..] == events[k + 1..];
          Poll(events[k].err, events[k].progress);
          over := result != 0;
          k := k + 1;
        }
      }
    }

    /** One call of the library, which handles the transfers that have ended. */
    method HandleEnds(events: seq<Event>, from: nat, room: nat, ghost goal: Stream) returns (k: nat)
      requires 3 <= packetSize && from <= |events| && Possible(Now(false), events[from..], packetSize, room)
      requires After(Now(false), events[from..], packetSize, room) == goal
      modifies this
      ensures from <= k <= |events| && (k < |events| ==> events[k].Polled?)
      ensures Possible(Now(false), events[k..], packetSize, room) && After(Now(false), events[k..], packetSize, room) == goal
    {
      hide Ended;
      k := from;
      while k < |events| && !events[k].Polled?
        invariant from <= k <= |events|
        invariant Possible(Now(false), events[k..], packetSize, room)
        invariant After(Now(false), events[k..], packetSize, room) == goal
      {
        assert events[k..][0] == events[k] && events[k..][1..] == events[k + 1..];
        match events[k] {
          case Completed(length, answers, resubmitted) =>
            var freed := ReadStreamCb(true, length, answers, resubmitted);
          case Broken =>
            var freed := ReadStreamCb(false, 0, [], 0);
        }
        k := k + 1;
      }
    }
  }

  lemma OnePacketLess(length: nat, p: int, n: nat)
    requires 3 <= p && 0 < length <= n * p < length + p
    ensures 1 <= n
    ensures if length > p then length - p <= (n - 1) * p < length else n == 1
  {
    MulStep(n - 1, p);
    if n >= 2 {
      MulStep(n - 2, p);
    }
  }

  lemma {:induction false} CountIsLength(at: int, length: nat, p: int, n: nat)
    requires 3 <= p && length <= n * p < length + p
    ensures |Blocks(at, length, p)| == n
    decreases length
  {
    if length == 0 {
    } else {
      OnePacketLess(length, p, n);
      CountIsLength(at + if length > p then p else length, if length > p then length - p else 0, p, n - 1);
    }
  }

  /** A transfer is cut at the packet boundaries, so what the user's callback is given, put
      together, is the payload that the other readers extract. The count of bytes, and the
      lengths passed on, are right exactly when the last packet is not a single byte: that one
      is passed on with the length -1. */
  lemma {:induction false} StreamAgrees(t: seq<bv8>, p: int, q: nat, m: nat)
    requires 3 <= p && m < p && |t| == q * p + m
    ensures var bs := Blocks(0, |t|, p);
            && Selected(t, bs) == Payload(t, p)
            && (NoneNegative(bs) <==> m != 1)
            && (Total(bs) == |Payload(t, p)| <==> m != 1)
  {
    BlocksFrom(t, 0, p);
    TotalLength(0, |t|, p, q, m);
    PayloadLength(t, p, q, m);
    NegativeBlock(0, |t|, p, q, m);
    assert t[0..] == t;
  }

  lemma {:induction false} BlocksFrom(t: seq<bv8>, at: nat, p: int)
    requires 3 <= p && at <= |t|
    ensures Selected(t, Blocks(at, |t| - at, p)) == Payload(t[at..], p)
    decreases |t| - at
  {
    hide Payload, Selected;
    if |t| - at > p {
      PacketPayload(t, at, p);
      BlocksFrom(t, at + p, p);
      SelectFirst(t, Block(at + 2, p - 2), Blocks(at + p, |t| - at - p, p));
    } else {
      LastBlock(t, at, p);
    }
  }

  lemma LastBlock(t: seq<bv8>, at: nat, p: int)
    requires 3 <= p && at <= |t| <= at + p
    ensures Selected(t, Blocks(at, |t| - at, p)) == Payload(t[at..], p)
  {
    if at < |t| {
      var b := Block(at + 2, |t| - at - 2);
      assert Blocks(at + (|t| - at), 0, p) == [];
      assert Blocks(at, |t| - at, p) == [b];
      assert [b][1..] == [];
    }
  }

  lemma PacketPayload(t: seq<bv8>, at: nat, p: int)
    requires 3 <= p && at + p < |t|
    ensures Payload(t[at..], p) == t[at + 2..at + p] + Payload(t[at + p..], p)
  {
    assert t[at..][2..p] == t[at + 2..at + p];
    assert t[at..][p..] == t[at + p..];
  }

  lemma {:induction false} TotalLength(at: int, length: nat, p: int, q: nat, m: nat)
    requires 3 <= p && m < p && length == q * p + m
    ensures Total(Blocks(at, length, p)) == q * (p - 2) + (if m > 0 then m - 2 else 0)
    decreases q
  {
    if q > 0 {
      MulStep(q - 1, p);
      MulStep(q - 1, p - 2);
      TotalLength(at + p, length - p, p, q - 1, m);
    } else if m > 0 {
      assert Total(Blocks(at + m, 0, p)) == 0;
    }
  }

  predicate NoneNegative(bs: seq<Block>)
  {
    forall i :: 0 <= i < |bs| ==> 0 <= bs[i].len
  }

  lemma NoneNegativeFirst(b: Block, bs: seq<Block>)
    ensures NoneNegative([b] + bs) <==> 0 <= b.len && NoneNegative(bs)
  {
    assert ([b] + bs)[0] == b;
    assert forall i :: 0 <= i < |bs| ==> ([b] + bs)[i + 1] == bs[i];
    if NoneNegative(bs) && 0 <= b.len {
      forall i | 0 <= i < |[b] + bs|
        ensures 0 <= ([b] + bs)[i].len
      {
        assert i > 0 ==> ([b] + bs)[i] == bs[i - 1];
      }
    }
  }

  lemma {:induction false} NegativeBlock(at: int, length: nat, p: int, q: nat, m: nat)
    requires 3 <= p && m < p && length == q * p + m
    ensures NoneNegative(Blocks(at, length, p)) <==> m != 1
    decreases q
  {
    hide NoneNegative;
    if q > 0 {
      MulStep(q - 1, p);
      NegativeBlock(at + p, length - p, p, q - 1, m);
      NoneNegativeFirst(Block(at + 2, p - 2), Blocks(at + p, length - p, p));
    } else {
      FewBytes(at, m, p);
    }
  }

  lemma FewBytes(at: int, m: nat, p: int)
    requires 3 <= p && m < p
    ensures NoneNegative(Blocks(at, m, p)) <==> m != 1
  {
    if m > 0 {
      assert Blocks(at + m, 0, p) == [];
      assert Blocks(at, m, p) == [Block(at + 2, m - 2)];
      assert Blocks(at, m, p)[0].len == m - 2;
    }
  }

  lemma SelectFirst(t: seq<bv8>, b: Block, bs: seq<Block>)
    requires 0 <= b.start && 0 <= b.len && b.start + b.len <= |t|
    ensures Selected(t, [b] + bs) == t[b.start..b.start + b.len] + Selected(t, bs)
    ensures Total([b] + bs) == b.len + Total(bs)
  {
  }

  // ---------- one transfer ----------

  /** Some answer is not zero, which should end the stream, by the documentation. */
  predicate Refused(answers: seq<int>) {
    exists i :: 0 <= i < |answers| && answers[i] != 0
  }

  lemma BlockCount(length: nat, p: int)
    requires 3 <= p
    ensures |Blocks(0, length, p)| >= 2 <==> length > p
    ensures |Blocks(0, length, p)| == 0 <==> length == 0
  {
    if length > p {
      var rest := Blocks(0 + p, length - p, p);
      assert rest != [];
      assert Blocks(0, length, p) == [Block(0 + 2, p - 2)] + rest;
    } else if length > 0 {
      var rest := Blocks(0 + length, length - length, p);
      assert rest == [];
      assert Blocks(0, length, p) == [Block(0 + 2, length - 2)] + rest;
    }
  }

  /** Whatever the callback answers, a refusal frees the transfer. */
  ghost predicate AnyRefusalFrees(length: nat, p: int)
    requires 3 <= p
  {
    forall answers: seq<int> | |answers| == |Blocks(0, length, p)| :: Freed(answers) <==> Refused(answers)
  }

  /** Only the answer for the last packet decides whether a transfer is submitted again, so a
      refusal frees it for all answers exactly when it is one packet at most. */
  lemma LastAnswerCounts(length: nat, p: int)
    requires 3 <= p
    ensures AnyRefusalFrees(length, p) <==> length <= p
    ensures Refused([1, 0]) && !Freed([1, 0])
  {
    var n := |Blocks(0, length, p)|;
    BlockCount(length, p);
    hide Blocks;
    assert Refused([1, 0]) by {
      assert [1, 0][0] != 0;
    }
    if length > p {
      var late := seq(n, i => if i == 0 then 1 else 0);
      assert late[0] != 0 && late[n - 1] == 0;
      assert Refused(late) && !Freed(late);
    } else {
      forall answers: seq<int> | |answers| == n
        ensures Freed(answers) <==> Refused(answers)
      {
        if answers != [] {
          assert Freed(answers) <==> answers[0] != 0;
        }
      }
    }
  }

  // ---------- when a refusal ends the stream ----------

  /** No block is passed on after a block that was refused. */
  predicate Prompt(calls: seq<Call>)
  {
    forall i, j :: 0 <= i < j < |calls| && calls[i].Passed? && calls[j].Passed? ==> calls[i].answer == 0
  }

  predicate NoBlocks(calls: seq<Call>)
  {
    forall i :: 0 <= i < |calls| ==> calls[i].Progress?
  }

  predicate NoRefusal(calls: seq<Call>)
  {
    forall i :: 0 <= i < |calls| && calls[i].Passed? ==> calls[i].answer == 0
  }

  /** The promise of the documentation, for streams of `n` transfers of up to `k` packets. */
  ghost predicate RefusalEnds(n: nat, k: nat, p: nat)
    requires 3 <= p
  {
    forall events: seq<Event> | Possible(Begun(n), events, p, k * p) :: Prompt(After(Begun(n), events, p, k * p).calls)
  }

  /** Without a transfer or without room in it there are no blocks. */
  predicate Idle(s: Stream, room: nat)
  {
    (s.inFlight == 0 || room == 0) && NoBlocks(s.calls)
  }

  lemma {:induction false} IdleRun(s: Stream, events: seq<Event>, p: nat, room: nat)
    requires 3 <= p && Possible(s, events, p, room) && Idle(s, room)
    ensures Idle(After(s, events, p, room), room)
    decreases |events|
  {
    if events != [] {
      IdleRun(Apply(s, events[0], p, room), events[1..], p, room);
    }
  }

  /** One transfer of one packet: once it is refused it is gone. */
  predicate Single(s: Stream)
  {
    s.inFlight <= 1 && Prompt(s.calls) && (NoRefusal(s.calls) || s.inFlight == 0)
  }

  lemma SingleStep(s: Stream, e: Event, p: nat)
    requires 3 <= p && Enabled(s, e, p, p) && Single(s)
    ensures Single(Apply(s, e, p, p))
  {
    if e.Completed? {
      BlockCount(e.length, p);
      hide Blocks;
      assert NoRefusal(s.calls);
    }
  }

  lemma {:induction false} SingleRun(s: Stream, events: seq<Event>, p: nat)
    requires 3 <= p && Possible(s, events, p, p) && Single(s)
    ensures Single(After(s, events, p, p))
    decreases |events|
  {
    hide Single, Apply;
    if events != [] {
      SingleStep(s, events[0], p);
      SingleRun(Apply(s, events[0], p, p), events[1..], p);
    }
  }

  lemma Then(s: Stream, e: Event, rest: seq<Event>, p: nat, room: nat)
    requires 3 <= p && Enabled(s, e, p, room) && Possible(Apply(s, e, p, room), rest, p, room)
    ensures Possible(s, [e] + rest, p, room) && After(s, [e] + rest, p, room) == After(Apply(s, e, p, room), rest, p, room)
  {
    assert ([e] + rest)[1..] == rest;
  }

  /** A transfer that brings one byte of payload. */
  lemma OneByte(answer: int, k: nat, p: nat)
    requires 3 <= p && 1 <= k
    ensures 3 <= k * p && Blocks(0, 3, p) == [Block(2, 1)]
    ensures Answered(Blocks(0, 3, p), [answer]) == [Passed(Block(2, 1), answer)]
  {
    MulMono(1, k, p);
    assert Blocks(3, 0, p) == [];
    assert Blocks(0, 3, p) == [Block(2, 1)] + [];
  }

  lemma MulMono(a: nat, b: nat, p: nat)
    requires a <= b
    ensures a * p <= b * p
  {
  }

  /** A refusal in one transfer leaves the other one going. */
  lemma OtherGoesOn(n: nat, k: nat, p: nat)
    requires 3 <= p && 2 <= n && 1 <= k
    ensures var events := [Completed(3, [1], 0), Completed(3, [0], 0)];
            && Possible(Begun(n), events, p, k * p)
            && After(Begun(n), events, p, k * p).calls == [Passed(Block(2, 1), 1), Passed(Block(2, 1), 0)]
    ensures !RefusalEnds(n, k, p)
  {
    var room := k * p;
    var first, second := Completed(3, [1], 0), Completed(3, [0], 0);
    OneByte(1, k, p);
    OneByte(0, k, p);
    hide Blocks, Answered;
    var s := Apply(Begun(n), first, p, room);
    var t := Apply(s, second, p, room);
    Then(s, second, [], p, room);
    Then(Begun(n), first, [second] + [], p, room);
    var events := [first] + ([second] + []);
    assert events == [first, second];
    assert t.calls == [Passed(Block(2, 1), 1), Passed(Block(2, 1), 0)];
    assert !Prompt(t.calls) by {
      assert t.calls[0].answer == 1 && t.calls[1].Passed?;
    }
  }

  lemma TwoPackets(p: nat)
    requires 3 <= p
    ensures var bs := Blocks(0, p + 3, p);
            |bs| == 2 && Answered(bs, [1, 0]) == [Passed(Block(2, p - 2), 1), Passed(Block(p + 2, 1), 0)]
  {
    assert Blocks(p + 3, 0, p) == [];
    assert Blocks(p, 3, p) == [Block(p + 2, 1)] + [];
    assert Blocks(0, p + 3, p) == [Block(2, p - 2)] + [Block(p + 2, 1)];
  }

  /** A refusal of the first packet is forgotten when the second is not refused. */
  lemma NextPacketGoesOn(n: nat, k: nat, p: nat)
    requires 3 <= p && 1 <= n && 2 <= k
    ensures var events := [Completed(p + 3, [1, 0], 0)];
            && Possible(Begun(n), events, p, k * p)
            && After(Begun(n), events, p, k * p).calls == [Passed(Block(2, p - 2), 1), Passed(Block(p + 2, 1), 0)]
            && After(Begun(n), events, p, k * p).inFlight == n
    ensures !RefusalEnds(n, k, p)
  {
    var room, e := k * p, Completed(p + 3, [1, 0], 0);
    MulMono(2, k, p);
    TwoPackets(p);
    hide Blocks, Answered;
    var t := Apply(Begun(n), e, p, room);
    Then(Begun(n), e, [], p, room);
    assert [e] + [] == [e];
    assert t.calls == [Passed(Block(2, p - 2), 1), Passed(Block(p + 2, 1), 0)];
    assert !Prompt(t.calls) by {
      assert t.calls[0].answer == 1 && t.calls[1].Passed?;
    }
  }

  /** The documentation promises that the stream ends when the callback returns a non-zero value.
      It does in every run exactly when there is no more than one packet in flight at a time. */
  lemma RefusalEndsExactly(n: nat, k: nat, p: nat)
    requires 3 <= p
    ensures RefusalEnds(n, k, p) <==> n == 0 || k == 0 || n == k == 1
  {
    if n == 0 || k == 0 {
      forall events: seq<Event> | Possible(Begun(n), events, p, k * p)
        ensures Prompt(After(Begun(n), events, p, k * p).calls)
      {
        IdleRun(Begun(n), events, p, k * p);
      }
    } else if n == k == 1 {
      assert k * p == p;
      forall events: seq<Event> | Possible(Begun(n), events, p, k * p)
        ensures Prompt(After(Begun(n), events, p, k * p).calls)
      {
        SingleRun(Begun(n), events, p);
      }
    } else if n >= 2 {
      OtherGoesOn(n, k, p);
    } else {
      NextPacketGoesOn(n, k, p);
    }
  }

  /** Once the device has no transfer any more, as when all of them were refused, the loop is left
      when the library returns for the second time at the latest. */
  lemma EndsWithoutTransfers(s: Stream, events: seq<Event>, p: nat, room: nat)
    requires 3 <= p && s.inFlight == 0 && Possible(s, events, p, room)
    ensures |events| <= 2 && (|events| == 2 ==> After(s, events, p, room).over)
    ensures After(s, events, p, room).inFlight == 0
  {
    if events != [] {
      EndsQuietly(Apply(s, events[0], p, room), events[1..], p, room);
    }
  }

  lemma EndsQuietly(s: Stream, events: seq<Event>, p: nat, room: nat)
    requires 3 <= p && s.inFlight == 0 && s.activity == 0 && Possible(s, events, p, room)
    ensures |events| <= 1 && (|events| == 1 ==> After(s, events, p, room).over)
    ensures After(s, events, p, room).inFlight == 0
  {
    if events != [] {
      var t := Apply(s, events[0], p, room);
      assert t.over && events[1..] == [];
    }
  }

  // ---------- when an error ends the stream ----------

  /** The end of a transfer that leaves an error in the result. */
  predicate Failing(e: Event)
  {
    e.Broken? || (e.Completed? && !Freed(e.answers) && e.resubmitted != 0)
  }

  /** The loop is left the next time the library returns after an error. */
  ghost predicate ErrorEnds(n: nat, k: nat, p: nat)
    requires 3 <= p
  {
    forall events: seq<Event>, i, j |
      Possible(Begun(n), events, p, k * p) && 0 <= i < j < |events| && Failing(events[i]) && events[j].Polled? ::
      After(Begun(n), events, p, k * p).over
  }

  predicate Doomed(s: Stream)
  {
    s.inFlight == 0 && s.result != 0
  }

  lemma {:induction false} ErrorEndsRun(s: Stream, events: seq<Event>, i: nat, j: nat, p: nat, room: nat)
    requires 3 <= p && s.inFlight <= 1 && Possible(s, events, p, room)
    requires i < j < |events| && Failing(events[i]) && events[j].Polled?
    ensures After(s, events, p, room).over
    decreases |events|
  {
    hide Blocks;
    var t := Apply(s, events[0], p, room);
    if i > 0 {
      ErrorEndsRun(t, events[1..], i - 1, j - 1, p, room);
    } else {
      assert Doomed(t);
      DoomedEnds(t, events[1..], p, room);
    }
  }

  lemma DoomedEnds(s: Stream, events: seq<Event>, p: nat, room: nat)
    requires 3 <= p && Doomed(s) && Possible(s, events, p, room) && events != []
    ensures After(s, events, p, room).over
  {
    assert events[0].Polled?;
    var t := Apply(s, events[0], p, room);
    assert t.over;
    assert events[1..] == [];
  }

  /** With two transfers in flight an error is overwritten by the next transfer that is submitted
      again, and the stream goes on. */
  lemma ErrorForgotten(n: nat, k: nat, p: nat)
    requires 3 <= p && 2 <= n
    ensures var events := [Broken, Completed(0, [], 0), Polled(0, [])];
            Possible(Begun(n), events, p, k * p) && !After(Begun(n), events, p, k * p).over
    ensures !ErrorEnds(n, k, p)
  {
    var room := k * p;
    var first, second, third := Broken, Completed(0, [], 0), Polled(0, []);
    var s := Apply(Begun(n), first, p, room);
    var t := Apply(s, second, p, room);
    Then(t, third, [], p, room);
    Then(s, second, [third] + [], p, room);
    Then(Begun(n), first, [second] + ([third] + []), p, room);
    var events := [first] + ([second] + ([third] + []));
    assert events == [first, second, third];
    assert Failing(events[0]) && events[2].Polled?;
  }

  lemma ErrorEndsExactly(n: nat, k: nat, p: nat)
    requires 3 <= p
    ensures ErrorEnds(n, k, p) <==> n <= 1
  {
    if n >= 2 {
      ErrorForgotten(n, k, p);
    } else {
      forall events: seq<Event>, i, j |
        Possible(Begun(n), events, p, k * p) && 0 <= i < j < |events| && Failing(events[i]) && events[j].Polled?
        ensures After(Begun(n), events, p, k * p).over
      {
        ErrorEndsRun(Begun(n), events, i, j, p, k * p);
      }
    }
  }

  // ---------- what the caller gets ----------

  /** The library returned `result` at this event, or the callback's transfer did not complete. */
  predicate Reports(e: Event, result: int)
  {
    match e
    case Completed(_, _, resubmitted) => resubmitted == result
    case Broken => result == ERROR_IO
    case Polled(err, _) => err == result
  }

  predicate Reported(events: seq<Event>, result: int)
  {
    exists i :: 0 <= i < |events| && Reports(events[i], result)
  }

  /** The result never comes from the callback. */
  lemma {:induction false} ResultReported(s: Stream, events: seq<Event>, p: nat, room: nat)
    requires 3 <= p && Possible(s, events, p, room)
    ensures var r := After(s, events, p, room).result;
            r == s.result || r == 1 || Reported(events, r)
    decreases |events|
  {
    hide Blocks, Answered;
    if events != [] {
      var t, r := Apply(s, events[0], p, room), After(s, events, p, room).result;
      ResultReported(t, events[1..], p, room);
      if r != s.result && r != 1 {
        if r == t.result {
          assert Reports(events[0], r);
        } else {
          var i :| 0 <= i < |events[1..]| && Reports(events[1..][i], r);
          assert Reports(events[i + 1], r);
        }
      }
    }
  }

  /** What the caller gets is an error of the library, or 1 when nothing has happened any more; so
      the value with which the callback refused is returned only if it is one of these. */
  lemma ReturnValue(n: nat, k: nat, p: nat, events: seq<Event>)
    requires 3 <= p && Possible(Begun(n), events, p, k * p) && After(Begun(n), events, p, k * p).over
    ensures var r := After(Begun(n), events, p, k * p).result;
            r != 0 && (r == 1 || Reported(events, r))
    ensures (forall r :: r != 0 ==> !Reported(events, r)) ==> After(Begun(n), events, p, k * p).result == 1
  {
    hide Blocks;
    ResultReported(Begun(n), events, p, k * p);
    OverAtPoll(Begun(n), events, p, k * p);
  }

  lemma {:induction false} OverAtPoll(s: Stream, events: seq<Event>, p: nat, room: nat)
    requires 3 <= p && Possible(s, events, p, room) && (s.over ==> s.result != 0)
    ensures var t := After(s, events, p, room); t.over ==> t.result != 0
    decreases |events|
  {
    hide Blocks, Answered;
    if events != [] {
      OverAtPoll(Apply(s, events[0], p, room), events[1..], p, room);
    }
  }

  /** The callback refuses the only packet with 5, and the caller gets 1. */
  lemma FiveBecomesOne(p: nat)
    requires 3 <= p
    ensures var events := [Completed(3, [5], 0), Polled(0, []), Polled(0, [])];
            && Possible(Begun(1), events, p, p) && After(Begun(1), events, p, p).over
            && After(Begun(1), events, p, p).result == 1
  {
    var first, second := Completed(3, [5], 0), Polled(0, []);
    OneByte(5, 1, p);
    hide Blocks, Answered;
    var s := Apply(Begun(1), first, p, p);
    var t := Apply(s, second, p, p);
    Then(t, second, [], p, p);
    Then(s, second, [second] + [], p, p);
    Then(Begun(1), first, [second] + ([second] + []), p, p);
    assert [first] + ([second] + ([second] + [])) == [first, second, second];
  }

  // ---------- the answers to the progress calls ----------

  /** The event without the call for the progress. */
  function Mute(e: Event): (r: Event)
  {
    if e.Polled? then Polled(e.err, []) else e
  }

  function MuteAll(events: seq<Event>): (r: seq<Event>)
    ensures |r| == |events|
  {
    seq(|events|, i requires 0 <= i < |events| => Mute(events[i]))
  }

  function OnlyBlocks(calls: seq<Call>): (r: seq<Call>)
  {
    if calls == [] then []
    else (if calls[0].Passed? then [calls[0]] else []) + OnlyBlocks(calls[1..])
  }

  function Muted(s: Stream): (t: Stream)
  {
    s.(calls := OnlyBlocks(s.calls))
  }

  lemma {:induction false} OnlyBlocksAppend(a: seq<Call>, b: seq<Call>)
    ensures OnlyBlocks(a + b) == OnlyBlocks(a) + OnlyBlocks(b)
  {
    if a == [] {
      assert a + b == b;
    } else {
      var first := if a[0].Passed? then [a[0]] else [];
      assert (a + b)[1..] == a[1..] + b && (a + b)[0] == a[0];
      OnlyBlocksAppend(a[1..], b);
      assert first + (OnlyBlocks(a[1..]) + OnlyBlocks(b)) == (first + OnlyBlocks(a[1..])) + OnlyBlocks(b);
    }
  }

  lemma {:induction false} OnlyBlocksOf(calls: seq<Call>)
    ensures (forall i :: 0 <= i < |calls| ==> calls[i].Passed?) ==> OnlyBlocks(calls) == calls
    ensures NoBlocks(calls) ==> OnlyBlocks(calls) == []
  {
    if calls != [] {
      OnlyBlocksOf(calls[1..]);
    }
  }

  lemma MuteStep(s: Stream, e: Event, p: nat, room: nat)
    requires 3 <= p && Enabled(s, e, p, room)
    ensures Enabled(Muted(s), Mute(e), p, room) && Apply(Muted(s), Mute(e), p, room) == Muted(Apply(s, e, p, room))
  {
    var added := Apply(s, e, p, room).calls[|s.calls|..];
    assert Apply(s, e, p, room).calls == s.calls + added;
    OnlyBlocksAppend(s.calls, added);
    OnlyBlocksOf(added);
    hide Blocks, OnlyBlocks;
  }

  /** The answers for the progress change nothing: without these calls the same blocks are passed on,
      with the same answers, and the stream ends at the same point with the same result. */
  lemma {:induction false} ProgressIgnored(s: Stream, events: seq<Event>, p: nat, room: nat)
    requires 3 <= p && Possible(s, events, p, room)
    ensures Possible(Muted(s), MuteAll(events), p, room)
    ensures After(Muted(s), MuteAll(events), p, room) == Muted(After(s, events, p, room))
    decreases |events|
  {
    hide Apply, Enabled, Muted;
    if events != [] {
      MuteStep(s, events[0], p, room);
      assert MuteAll(events)[1..] == MuteAll(events[1..]);
      ProgressIgnored(Apply(s, events[0], p, room), events[1..], p, room);
    }
  }

  /** No block is passed on after a call for the progress was answered with a non-zero value. */
  predicate ProgressPrompt(calls: seq<Call>)
  {
    forall i, j :: 0 <= i < j < |calls| && calls[i].Progress? && calls[j].Passed? ==> calls[i].answer == 0
  }

  ghost predicate ProgressEnds(n: nat, k: nat, p: nat)
    requires 3 <= p
  {
    forall events: seq<Event> | Possible(Begun(n), events, p, k * p) ::
      ProgressPrompt(After(Begun(n), events, p, k * p).calls)
  }

  /** Refusing at a call for the progress ends nothing, unless there is nothing to end. */
  lemma ProgressEndsExactly(n: nat, k: nat, p: nat)
    requires 3 <= p
    ensures ProgressEnds(n, k, p) <==> n == 0 || k == 0
  {
    if n == 0 || k == 0 {
      forall events: seq<Event> | Possible(Begun(n), events, p, k * p)
        ensures ProgressPrompt(After(Begun(n), events, p, k * p).calls)
      {
        IdleRun(Begun(n), events, p, k * p);
      }
    } else {
      GoesOnAfterProgress(n, k, p);
    }
  }

  lemma GoesOnAfterProgress(n: nat, k: nat, p: nat)
    requires 3 <= p && 1 <= n && 1 <= k
    ensures var events := [Polled(0, [1]), Completed(3, [0], 0)];
            && Possible(Begun(n), events, p, k * p)
            && After(Begun(n), events, p, k * p).calls == [Progress(1), Passed(Block(2, 1), 0)]
    ensures !ProgressEnds(n, k, p)
  {
    var room := k * p;
    var first, second := Polled(0, [1]), Completed(3, [0], 0);
    OneByte(0, k, p);
    hide Blocks, Answered;
    var s := Apply(Begun(n), first, p, room);
    assert s.calls == [Progress(1)];
    var t := Apply(s, second, p, room);
    Then(s, second, [], p, room);
    Then(Begun(n), first, [second] + [], p, room);
    var events := [first] + ([second] + []);
    assert events == [first, second];
    assert t.calls == [Progress(1), Passed(Block(2, 1), 0)];
    assert !ProgressPrompt(t.calls) by {
      assert t.calls[0].answer == 1 && t.calls[1].Passed?;
    }
  }
}
