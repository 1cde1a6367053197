/** What each call of `get_pkg` found on the line, read and handed over, call by call. */
module Calls {
  import opened Words
  import opened Options
  import opened Packets
  import opened ManagerSpec
  import F = Framing
  import U = Uart

  /** How a call ends: with its return value, waiting forever for the rest of a frame on a silent
      line, or at a packet that addresses memory outside the buffers. */
  datatype Outcome = Returned(rc: int) | Blocked | OutOfRange(p: Frame)

  /** The frames completed are those handed over and the one the call stopped at. */
  function Stopped(out: Outcome): seq<Frame> { if out.OutOfRange? then [out.p] else [] }

  /** All frames handed over were accepted, but for the last one of a call that returns 1. */
  predicate Judged(out: Outcome, frames: seq<Frame>) {
    && (out.OutOfRange? ==> !PacketFits(out.p))
    && (out.Returned? ==> out.rc == 0 || out.rc == 1)
    && (out == Returned(1) ==> frames != [])
    && forall i :: 0 <= i < |frames| ==> (Accepted(frames[i]) <==> !(out == Returned(1) && i == |frames| - 1))
  }

  /** One call: how many more bytes the line has brought when it begins, at least; how many are stored
      then; what it reads and hands over; how it ends, and how many bytes are stored at its last look. */
  datatype Call = Call(arriving: nat, arrived: nat, bytes: seq<Byte>, frames: seq<Frame>, out: Outcome, stored: nat)

  /** Between calls: everything read, how much is stored, and where the receiver stands. */
  datatype Moment = Moment(given: seq<Byte>, stored: nat, stand: F.Stand)

  function Next(mo: Moment, c: Call): (e: Moment)
    requires F.Proper(mo.stand)
    ensures F.Proper(e.stand)
  {
    Moment(mo.given + c.bytes, c.stored, F.Standing(mo.stand, c.bytes))
  }

  /** How many bytes are stored after so many more came in, on a line that carries `total`. */
  function Delivered(stored: nat, arriving: nat, total: nat): nat {
    if stored + arriving < total then stored + arriving else total
  }

  /** What `get_pkg` does: it reads until the ring looks empty between frames, or a frame is rejected,
      or it waits on a line that stays silent, within a frame or because 1024 bytes waited and the ring,
      full, looked empty when it came to read, or a packet is out of range. */
  ghost predicate Makes(mo: Moment, c: Call, total: nat)
    requires F.Proper(mo.stand)
  {
    && mo.stored <= c.arrived <= c.stored <= total && Delivered(mo.stored, c.arriving, total) <= c.arrived
    && |mo.given + c.bytes| <= c.stored
    && F.Received(mo.stand, c.bytes) == c.frames + Stopped(c.out) && Judged(c.out, c.frames)
    && (c.out == Returned(0) || c.out.Blocked? ==> (c.stored - |mo.given + c.bytes|) % U.RX_SIZE == 0)
    && (c.out.Blocked? ==> c.stored == total)
    && (c.out.Blocked? ==> F.Standing(mo.stand, c.bytes).Filling? || c.stored - |mo.given + c.bytes| >= U.RX_SIZE)
  }

  function Reached(mo: Moment, calls: seq<Call>): (e: Moment)
    requires F.Proper(mo.stand)
    ensures F.Proper(e.stand)
  {
    if calls == [] then mo else Next(Reached(mo, calls[..|calls| - 1]), calls[|calls| - 1])
  }

  ghost predicate MakesAt(mo: Moment, calls: seq<Call>, i: nat, total: nat)
    requires F.Proper(mo.stand) && i < |calls|
  {
    Makes(Reached(mo, calls[..i]), calls[i], total)
  }

  /** The calls made from one moment to another. */
  ghost predicate Follows(mo: Moment, calls: seq<Call>, total: nat, e: Moment) {
    && F.Proper(mo.stand) && e == Reached(mo, calls)
    && forall i :: 0 <= i < |calls| ==> MakesAt(mo, calls, i, total)
  }

  lemma FollowsNothing(mo: Moment, total: nat)
    requires F.Proper(mo.stand)
    ensures Follows(mo, [], total, mo)
  {
  }

  lemma FollowsOne(mo: Moment, c: Call, total: nat)
    requires F.Proper(mo.stand) && Makes(mo, c, total)
    ensures Follows(mo, [c], total, Next(mo, c))
  {
    hide Makes, Next;
    assert [c][..0] == [];
    assert Reached(mo, [c]) == Next(Reached(mo, []), c);
  }

  lemma {:induction false} ReachedAppend(mo: Moment, a: seq<Call>, b: seq<Call>)
    requires F.Proper(mo.stand)
    ensures Reached(mo, a + b) == Reached(Reached(mo, a), b)
    decreases |b|
  {
    hide Next;
    if b == [] {
      assert a + b == a;
    } else {
      var n := |b| - 1;
      ReachedAppend(mo, a, b[..n]);
      assert (a + b)[..|a + b| - 1] == a + b[..n];
    }
  }

  lemma FollowsAppend(mo: Moment, a: seq<Call>, e: Moment, b: seq<Call>, f: Moment, total: nat)
    requires Follows(mo, a, total, e) && Follows(e, b, total, f)
    ensures Follows(mo, a + b, total, f)
  {
    hide Makes, Next, Reached;
    ReachedAppend(mo, a, b);
    forall i | 0 <= i < |a + b| ensures MakesAt(mo, a + b, i, total) {
      if i < |a| {
        assert MakesAt(mo, a, i, total);
        assert (a + b)[..i] == a[..i];
      } else {
        assert MakesAt(e, b, i - |a|, total);
        assert (a + b)[..i] == a + b[..i - |a|];
        ReachedAppend(mo, a, b[..i - |a|]);
      }
    }
  }

  lemma {:induction false} FollowsFront(mo: Moment, calls: seq<Call>, total: nat, e: Moment, n: nat)
    requires Follows(mo, calls, total, e) && n <= |calls|
    ensures Follows(mo, calls[..n], total, Reached(mo, calls[..n]))
  {
    hide Makes, Next, Reached;
    forall i | 0 <= i < n ensures MakesAt(mo, calls[..n], i, total) {
      assert MakesAt(mo, calls, i, total);
      assert calls[..n][..i] == calls[..i];
    }
  }

  // How a series of calls ends

  predicate AllReturned(calls: seq<Call>) { forall i :: 0 <= i < |calls| ==> calls[i].out.Returned? }

  /** All calls returned, or all but the last one, which ended so. */
  predicate EndsIn(calls: seq<Call>, out: Outcome) {
    if out.Returned? then AllReturned(calls)
    else calls != [] && calls[|calls| - 1].out == out && AllReturned(calls[..|calls| - 1])
  }

  lemma EndsAppend(a: seq<Call>, b: seq<Call>, out: Outcome)
    requires AllReturned(a) && EndsIn(b, out)
    ensures EndsIn(a + b, out)
  {
    if b != [] {
      assert (a + b)[..|a + b| - 1] == a + b[..|b| - 1];
    }
  }

  /** Everything read and everything handed over. */
  function BytesIn(calls: seq<Call>): seq<Byte> {
    if calls == [] then [] else BytesIn(calls[..|calls| - 1]) + calls[|calls| - 1].bytes
  }

  function FramesIn(calls: seq<Call>): seq<Frame> {
    if calls == [] then [] else FramesIn(calls[..|calls| - 1]) + calls[|calls| - 1].frames
  }

  lemma FramesOne(c: Call)
    ensures FramesIn([c]) == c.frames
  {
    assert [c][..0] == [];
  }

  lemma FramesMore(calls: seq<Call>, c: Call)
    ensures FramesIn(calls + [c]) == FramesIn(calls) + c.frames
  {
    assert (calls + [c])[..|calls|] == calls;
  }

  lemma {:induction false} FramesAppend(a: seq<Call>, b: seq<Call>)
    ensures FramesIn(a + b) == FramesIn(a) + FramesIn(b)
    decreases |b|
  {
    if b == [] {
      assert a + b == a;
    } else {
      var front, c := b[..|b| - 1], b[|b| - 1];
      hide *;
      FramesAppend(a, front);
      FramesMore(a + front, c);
      FramesMore(front, c);
      assert b == front + [c] && a + b == (a + front) + [c];
    }
  }

  /** However the calls cut the stream, together they hand over the frames of all its bytes. */
  lemma {:induction false} CallsReceive(mo: Moment, calls: seq<Call>, total: nat, e: Moment, out: Outcome)
    requires Follows(mo, calls, total, e) && EndsIn(calls, out)
    ensures e.given == mo.given + BytesIn(calls) && e.stand == F.Standing(mo.stand, BytesIn(calls))
    ensures F.Received(mo.stand, BytesIn(calls)) == FramesIn(calls) + Stopped(out)
    decreases |calls|
  {
    hide Judged;
    if calls != [] {
      var n := |calls| - 1;
      var front, c := calls[..n], calls[n];
      FollowsFront(mo, calls, total, e, n);
      CallsReceive(mo, front, total, Reached(mo, front), Returned(0));
      assert MakesAt(mo, calls, n, total);
      F.ReceivedAppend(mo.stand, BytesIn(front), c.bytes);
    }
  }

  // What the calls leave unread

  /** At the end of the i-th call, which read them all: everything that was stored when it began, and
      everything that came in meanwhile. */
  ghost predicate ReadsUp(mo: Moment, calls: seq<Call>, i: nat)
    requires F.Proper(mo.stand) && i < |calls|
  {
    |Reached(mo, calls[..i + 1]).given| == calls[i].stored >= calls[i].arrived
  }

  /** At that time so many bytes were stored and not read that the ring, full, looked empty. */
  ghost predicate Flooded(mo: Moment, calls: seq<Call>, i: nat)
    requires F.Proper(mo.stand) && i < |calls|
  {
    calls[i].stored - |Reached(mo, calls[..i + 1]).given| >= U.RX_SIZE
  }

  /** A call that returns has read all there was, unless its last frame was rejected or 1024 bytes or
      more waited. */
  lemma ReturnedReads(mo: Moment, calls: seq<Call>, total: nat, e: Moment, i: nat)
    requires Follows(mo, calls, total, e) && i < |calls| && calls[i].out.Returned?
    ensures || ReadsUp(mo, calls, i) || Flooded(mo, calls, i)
            || (calls[i].out == Returned(1) && calls[i].frames != [] && !Accepted(calls[i].frames[|calls[i].frames| - 1]))
  {
    hide Reached, Accepted;
    assert MakesAt(mo, calls, i, total);
    ReachedNext(mo, calls, i);
  }

  lemma ReachedNext(mo: Moment, calls: seq<Call>, i: nat)
    requires F.Proper(mo.stand) && i < |calls|
    ensures Reached(mo, calls[..i + 1]) == Next(Reached(mo, calls[..i]), calls[i])
  {
    hide Next;
    assert calls[..i + 1][..i] == calls[..i];
  }

  // When the whole line is read

  function Rejected(frames: seq<Frame>): nat {
    if frames == [] then 0 else Rejected(frames[..|frames| - 1]) + (if Accepted(frames[|frames| - 1]) then 0 else 1)
  }

  lemma {:induction false} RejectedAppend(a: seq<Frame>, b: seq<Frame>)
    ensures Rejected(a + b) == Rejected(a) + Rejected(b)
    decreases |b|
  {
    hide Accepted;
    if b == [] {
      assert a + b == a;
    } else {
      RejectedAppend(a, b[..|b| - 1]);
      assert (a + b)[..|a + b| - 1] == a + b[..|b| - 1];
    }
  }

  lemma {:induction false} NoneRejected(frames: seq<Frame>)
    requires forall i :: 0 <= i < |frames| ==> Accepted(frames[i])
    ensures Rejected(frames) == 0
    decreases |frames|
  {
    hide Accepted;
    if frames != [] {
      NoneRejected(frames[..|frames| - 1]);
    }
  }

  /** The calls that returned 1. */
  function Ones(calls: seq<Call>): nat {
    if calls == [] then 0 else Ones(calls[..|calls| - 1]) + (if calls[|calls| - 1].out == Returned(1) then 1 else 0)
  }

  /** The calls before which the rest of the line had come in. */
  function Full(calls: seq<Call>, total: nat): nat {
    if calls == [] then 0 else Full(calls[..|calls| - 1], total) + (if calls[|calls| - 1].arriving >= total then 1 else 0)
  }

  lemma {:induction false} FullAppend(a: seq<Call>, b: seq<Call>, total: nat)
    ensures Full(a + b, total) == Full(a, total) + Full(b, total)
    decreases |b|
  {
    if b == [] {
      assert a + b == a;
    } else {
      FullAppend(a, b[..|b| - 1], total);
      assert (a + b)[..|a + b| - 1] == a + b[..|b| - 1];
    }
  }

  lemma {:induction false} FirstFull(calls: seq<Call>, total: nat)
    requires calls != [] && calls[0].arriving >= total
    ensures Full(calls, total) >= 1
    decreases |calls|
  {
    if |calls| > 1 {
      FirstFull(calls[..|calls| - 1], total);
    }
  }

  /** One frame is rejected for each 1 returned. */
  lemma {:induction false} OnesReject(mo: Moment, calls: seq<Call>, total: nat, e: Moment)
    requires Follows(mo, calls, total, e) && AllReturned(calls)
    ensures Rejected(FramesIn(calls)) == Ones(calls)
    decreases |calls|
  {
    hide Reached, Accepted;
    if calls != [] {
      var n := |calls| - 1;
      FollowsFront(mo, calls, total, e, n);
      OnesReject(mo, calls[..n], total, Reached(mo, calls[..n]));
      assert MakesAt(mo, calls, n, total);
      OneRejects(calls[n]);
      RejectedAppend(FramesIn(calls[..n]), calls[n].frames);
    }
  }

  lemma OneRejects(c: Call)
    requires Judged(c.out, c.frames) && c.out.Returned?
    ensures Rejected(c.frames) == if c.out == Returned(1) then 1 else 0
  {
    hide Accepted;
    if c.out == Returned(1) {
      NoneRejected(c.frames[..|c.frames| - 1]);
    } else {
      NoneRejected(c.frames);
    }
  }

  /** On a line shorter than the ring: while something is unread every call on the full line returns 1. */
  lemma {:induction false} UnreadRejects(mo: Moment, calls: seq<Call>, total: nat, e: Moment)
    requires Follows(mo, calls, total, e) && AllReturned(calls) && total < U.RX_SIZE && |mo.given| <= total
    ensures |e.given| <= total && (|e.given| == total || Full(calls, total) <= Ones(calls))
    decreases |calls|
  {
    hide Accepted, Judged;
    if calls != [] {
      var n := |calls| - 1;
      FollowsFront(mo, calls, total, e, n);
      UnreadRejects(mo, calls[..n], total, Reached(mo, calls[..n]));
      assert MakesAt(mo, calls, n, total);
      OutIsRc(calls[n]);
    }
  }

  lemma OutIsRc(c: Call)
    requires Judged(c.out, c.frames) && c.out.Returned?
    ensures c.out == Returned(0) || c.out == Returned(1)
  {
    hide Accepted;
  }

  /** A line shorter than the ring is handled to its end when more calls find it there than it carries
      frames that are rejected. */
  lemma EverythingHandled(line: seq<Byte>, mo: Moment, calls: seq<Call>, e: Moment)
    requires mo.given == [] && mo.stand == F.Hunting(0) && Follows(mo, calls, |line|, e) && AllReturned(calls)
    requires |line| < U.RX_SIZE && e.given <= line && Full(calls, |line|) > Rejected(F.Scan(line))
    ensures e.given == line && FramesIn(calls) == F.Scan(line)
  {
    hide Follows, AllReturned, FramesIn, BytesIn, Full, Ones, Rejected, F.Scan, F.Received;
    CallsReceive(mo, calls, |line|, e, Returned(0));
    assert [] + BytesIn(calls) == BytesIn(calls);
    F.ReceivedFromPowerOn(e.given);
    F.ReceivedFromPowerOn(line);
    UnreadRejects(mo, calls, |line|, e);
    OnesReject(mo, calls, |line|, e);
    var rest := line[|e.given|..];
    assert line == e.given + rest;
    F.ReceivedAppend(F.Hunting(0), e.given, rest);
    RejectedAppend(F.Received(F.Hunting(0), e.given), F.Received(F.Standing(F.Hunting(0), e.given), rest));
    assert FramesIn(calls) + [] == FramesIn(calls);
  }

  // When a series of calls comes to a stop

  /** A line shorter than the ring that ends between frames and carries no packet out of range. */
  ghost predicate Clean(line: seq<Byte>) {
    && |line| < U.RX_SIZE && F.Standing(F.Hunting(0), line).Hunting?
    && forall i :: 0 <= i < |F.Scan(line)| ==> PacketFits(F.Scan(line)[i])
  }

  /** On a line shorter than the ring a call blocks only when it has read everything and stands within a
      frame. */
  lemma BlocksWithin(line: seq<Byte>, mo: Moment, calls: seq<Call>, e: Moment, out: Outcome)
    requires Follows(mo, calls, |line|, e) && EndsIn(calls, out) && out.Blocked?
    requires |line| < U.RX_SIZE && e.given <= line
    ensures e.given == line && e.stand.Filling?
  {
    hide Judged;
    assert MakesAt(mo, calls, |calls| - 1, |line|);
  }

  /** On a clean line every call returns. */
  lemma CleanReturns(line: seq<Byte>, mo: Moment, calls: seq<Call>, e: Moment, out: Outcome)
    requires mo.given == [] && mo.stand == F.Hunting(0) && Follows(mo, calls, |line|, e) && EndsIn(calls, out)
    requires Clean(line) && e.given <= line
    ensures out.Returned?
  {
    hide Follows, BytesIn, FramesIn, F.Scan, F.Received, PacketFits;
    CallsReceive(mo, calls, |line|, e, out);
    assert [] + BytesIn(calls) == BytesIn(calls);
    F.ReceivedFromPowerOn(e.given);
    F.ReceivedFromPowerOn(line);
    match out
    case Returned(_) =>
    case Blocked => BlocksWithin(line, mo, calls, e, out);
    case OutOfRange(p) =>
      var rest := line[|e.given|..];
      assert line == e.given + rest;
      F.ReceivedAppend(F.Hunting(0), e.given, rest);
      assert F.Scan(line)[|FramesIn(calls)|] == p;
      StoppedAt(mo, calls, |line|, e, p);
  }

  lemma StoppedAt(mo: Moment, calls: seq<Call>, total: nat, e: Moment, p: Frame)
    requires Follows(mo, calls, total, e) && EndsIn(calls, OutOfRange(p))
    ensures !PacketFits(p)
  {
    hide PacketFits, Reached;
    assert MakesAt(mo, calls, |calls| - 1, total);
  }
}
