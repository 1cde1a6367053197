/** The main loop: everything the program does is a run of the manager's state machine over the
    frames of the byte stream, the idle chips and the chips' answers. */
module Firmware {
  import opened Words
  import opened Options
  import opened Packets
  import opened ManagerSpec
  import opened Manager
  import opened WorkSpec
  import Miner
  import SU = ShaUnit
  import F = Framing
  import U = Uart
  import opened Calls
  import opened ReportWire
  import opened Transcript
  import P = Provenance
  import RR = ResultRing
  import JobSafety

  /** Reads one more byte of the line and turns the receiver. */
  method TakeOne(rx: F.Receiver, line: U.Receiver, ghost m: F.Stand, ghost bytes: seq<Byte>, ghost frames: seq<Frame>)
    returns (c: Option<Byte>, frame: Option<Frame>)
    requires rx.Valid() && line.Valid() && rx.Repr() !! line.Repr() && Heard(m, rx.Stand(), bytes, frames)
    modifies rx.Repr(), line.Repr()
    ensures rx.Valid() && line.Valid() && line.Line() == old(line.Line())
    ensures old(|line.given|) <= old(|line.stored|) <= |line.stored| && |line.given| <= |line.stored|
    ensures line.given == old(line.given) + Listed(c)
    ensures Heard(m, rx.Stand(), bytes + Listed(c),
                  frames + Listed(frame))
    ensures c == None ==> frame == None && line.Silent() && rx.start == old(rx.start)
    ensures frame.Some? ==> !rx.start && rx.count == 2
  {
    hide U.Receiver.Valid, F.Receiver.Valid, Heard, F.Proper;
    line.GivenBound();
    frame := None;
    ghost var at;
    c, at := line.Read();
    line.GivenBound();
    if c.Some? {
      ghost var e := rx.Stand();
      frame := rx.TakeByte(c.value);
      HeardOne(e, c.value);
      HeardAppend(m, e, rx.Stand(), bytes, [c.value], frames, Listed(frame));
    } else {
      assert bytes + [] == bytes && frames + [] == frames;
    }
  }

  // Packets

  predicate AllAccepted(frames: seq<Frame>) { forall i :: 0 <= i < |frames| ==> Accepted(frames[i]) }

  lemma PacketStep(s: State, p: Frame)
    requires Consistent(s) && PacketFits(p)
    ensures Possible(Packet(p)) && ManagerSpec.Step(s, Packet(p)) == AfterPacket(s, p)
    ensures WantedBy(s, Packet(p)) == AsAnswers(Replies(s, p))
  {
    hide AfterPacket, PacketFits, Replies, AsAnswers;
  }

  /** The answers to a packet, put together as `decode_pkg` and `get_pkg` send them. */
  function Answers(report: Option<Report>, accepted: bool, kind: Byte, localWork: nat, hwWork: nat): seq<Report> {
    Listed(report)
    + (if accepted && kind == P_DETECT then [Version]
       else if accepted && kind == P_REQUIRE then [Status(localWork, hwWork)]
       else [])
  }

  lemma AnswersAre(s: State, p: Frame)
    requires Consistent(s) && PacketFits(p)
    ensures Answers(if Accepted(p) && Kind(p) == P_POLLING then Some(PollReport(s)) else None, Accepted(p), Kind(p),
                    AfterPacket(s, p).localWork, AfterPacket(s, p).hwWork) == Replies(s, p)
  {
    hide Consistent, Accepted, WithPacket, PacketInRange, SetNonce2, Field;
  }

  /** Decodes a frame and sends what it is answered with. */
  method DecodeAndAnswer(m: Manager, f: Frame) returns (rc: int, replies: seq<Frame>)
    requires m.Valid() && PacketFits(f)
    modifies m.Repr()
    ensures m.Valid() && Consistent(old(m.Abs())) && m.Abs() == AfterPacket(old(m.Abs()), f)
    ensures AllCarry(replies, Replies(old(m.Abs()), f))
    ensures rc == if Accepted(f) then 0 else 1
  {
    hide Manager.Valid, Consistent, PacketFits, Accepted, AfterPacket, Replies, AllCarry, PollReport, Manager.Abs;
    m.AbsConsistent();
    AnswersAre(m.Abs(), f);
    RepliesSendable(m.Abs(), f);
    var report;
    rc, report := m.DecodePkg(f);
    CountersAre(m);
    replies := SendAll(Answers(report, rc == 0, Kind(f), m.v.localWork, m.v.hwWork));
  }

  lemma CountersAre(m: Manager)
    ensures m.Abs().localWork == m.v.localWork && m.Abs().hwWork == m.v.hwWork && m.Abs().newStratum == m.v.newStratum
  {
  }

  /** Hands one more frame of a run to `decode_pkg`. */
  method HandleFrame(m: Manager, f: Frame, ghost s: State, ghost es: Events, sent: seq<Output>)
    returns (rc: int, all: seq<Output>)
    requires m.Valid() && PacketFits(f) && Ran(s, m.Abs(), es, sent)
    modifies m.Repr()
    ensures m.Valid() && Ran(s, m.Abs(), es + [Packet(f)], all)
    ensures rc == if Accepted(f) then 0 else 1
  {
    hide Manager.Valid, Manager.Abs, ManagerSpec.Step, Consistent, Possible, PacketFits, Accepted, Ran, AllCarry, AllMeet, WantedBy, AsReplies, AsAnswers, AfterPacket, Replies;
    m.AbsConsistent();
    ghost var t := m.Abs();
    PacketStep(t, f);
    var more;
    rc, more := DecodeAndAnswer(m, f);
    RepliesMeet(more, Replies(t, f));
    RanMore(s, t, es, sent, Packet(f), AsReplies(more));
    all := sent + AsReplies(more);
  }

  function PacketEvents(frames: seq<Frame>): (es: Events)
    ensures |es| == |frames| && forall i :: 0 <= i < |es| ==> es[i] == Packet(frames[i])
  {
    seq(|frames|, i requires 0 <= i < |frames| => Packet(frames[i]))
  }

  lemma PacketEventsMore(frames: seq<Frame>, f: Frame)
    ensures PacketEvents(frames + [f]) == PacketEvents(frames) + [Packet(f)]
  {
  }

  /** What one turn of the loop leaves: the frame to handle, or the end of the call. */
  datatype Turn = Continue | Handle(f: Frame) | End(out: Outcome)

  /** Why a call ended: the ring looked empty between frames, or within one while the line is silent;
      or else the ring filled up between the look and the read. */
  ghost predicate Justified(out: Outcome, line: U.Receiver, start: bool)
    reads line
  {
    && (out == Returned(0) ==> line.Drained())
    && (out.Blocked? ==> line.Silent() && (start || |line.stored| - |line.given| >= U.RX_SIZE))
  }

  /** What waits behind a byte that was seen is a full ring if it looks empty. */
  lemma SeenThenEmpty(seen: nat, stored: nat, given: nat)
    requires given <= seen <= stored && (seen - given) % U.RX_SIZE != 0 && (stored - given) % U.RX_SIZE == 0
    ensures stored - given >= U.RX_SIZE
  {
  }

  /** One turn up to the call of `decode_pkg`. */
  method NextByte(rx: F.Receiver, line: U.Receiver, ghost m: F.Stand, ghost bytes: seq<Byte>, ghost frames: seq<Frame>)
    returns (turn: Turn, ghost more: seq<Byte>)
    requires rx.Valid() && line.Valid() && rx.Repr() !! line.Repr() && Heard(m, rx.Stand(), bytes, frames)
    modifies rx.Repr(), line.Repr()
    ensures rx.Valid() && line.Valid() && line.Line() == old(line.Line())
    ensures line.given == old(line.given) + more && |line.given| <= |line.stored| && old(|line.stored|) <= |line.stored|
    ensures turn.End? || more != []
    ensures Heard(m, rx.Stand(), bytes + more, frames + (if turn.Handle? then [turn.f] else []))
    ensures turn.End? ==> turn.out == Blocked || (turn.out == Returned(0) && !rx.start && rx.count == 2)
    ensures turn.End? ==> Justified(turn.out, line, rx.start)
    ensures turn.Handle? ==> !rx.start && rx.count == 2
  {
    hide U.Receiver.Valid, F.Receiver.Valid, Heard, F.Proper, U.Receiver.Line;
    line.GivenBound();
    assert bytes + [] == bytes && frames + [] == frames;
    var any := line.ReadNonblock();
    line.GivenBound();
    ghost var seen := |line.stored|;
    if !any && !rx.start {
      rx.CountWhileHunting();
      return End(Returned(0)), [];
    }
    var c, frame := TakeOne(rx, line, m, bytes, frames);
    if c == None {
      if any { SeenThenEmpty(seen, |line.stored|, |line.given|); }
      return End(Blocked), [];
    }
    more := [c.value];
    turn := if frame.Some? then Handle(frame.value) else Continue;
  }

  /** In a call that began at `mo`: what was read and completed. */
  ghost predicate Underway(mo: Moment, e: Moment, arrived: nat, total: nat, bytes: seq<Byte>, frames: seq<Frame>) {
    && e.given == mo.given + bytes && Heard(mo.stand, e.stand, bytes, frames)
    && arrived <= e.stored <= total && |e.given| <= e.stored
  }

  /** The same turn beside a manager, which it leaves alone. */
  method NextByteBeside(m: Manager, rx: F.Receiver, line: U.Receiver,
                        ghost mo: Moment, ghost arrived: nat, ghost bytes: seq<Byte>, ghost frames: seq<Frame>)
    returns (turn: Turn, ghost more: seq<Byte>)
    requires m.Valid() && rx.Valid() && line.Valid() && m.Repr() !! rx.Repr() !! line.Repr()
    requires Underway(mo, Now(rx, line), arrived, |line.Line()|, bytes, frames)
    modifies rx.Repr(), line.Repr()
    ensures m.Valid() && m.Abs() == old(m.Abs()) && rx.Valid() && line.Valid() && line.Line() == old(line.Line())
    ensures turn.End? || more != []
    ensures Underway(mo, Now(rx, line), arrived, |line.Line()|, bytes + more, frames + (if turn.Handle? then [turn.f] else []))
    ensures turn.End? ==> turn.out == Blocked || (turn.out == Returned(0) && !rx.start && rx.count == 2)
    ensures turn.End? ==> Justified(turn.out, line, rx.start)
    ensures turn.Handle? ==> !rx.start && rx.count == 2
  {
    hide Manager.Valid, Manager.Abs, U.Receiver.Valid, F.Receiver.Valid, F.Receiver.Stand, F.Proper, Heard, Justified;
    turn, more := NextByte(rx, line, mo.stand, bytes, frames);
    assert mo.given + bytes + more == mo.given + (bytes + more);
  }

  /** The moment between two calls. */
  ghost function Now(rx: F.Receiver, line: U.Receiver): (mo: Moment)
    requires rx.Valid()
    reads rx.Repr(), line
    ensures F.Proper(mo.stand)
  {
    Moment(line.given, |line.stored|, rx.Stand())
  }

  /** At least so many more bytes come in before the call begins. */
  method Deliver(m: Manager, rx: F.Receiver, line: U.Receiver, arriving: nat) returns (ghost arrived: nat)
    requires m.Valid() && rx.Valid() && line.Valid()
    requires m.Repr() !! rx.Repr() !! line.Repr()
    modifies line.Repr()
    ensures m.Valid() && rx.Valid() && line.Valid() && m.Abs() == old(m.Abs()) && line.Line() == old(line.Line())
    ensures Underway(old(Now(rx, line)), Now(rx, line), arrived, |line.Line()|, [], [])
    ensures old(Now(rx, line)).stored <= arrived && Delivered(old(Now(rx, line)).stored, arriving, |line.Line()|) <= arrived
  {
    hide Manager.Valid, Manager.Abs, F.Receiver.Valid, F.Receiver.Stand, U.Receiver.Valid, Heard, F.Proper;
    HeardNothing(rx.Stand());
    line.Deliver(arriving);
    line.GivenBound();
    arrived := |line.stored|;
  }

  lemma UnderwayBounds(mo: Moment, e: Moment, arrived: nat, total: nat, bytes: seq<Byte>, frames: seq<Frame>)
    requires Underway(mo, e, arrived, total, bytes, frames)
    ensures |bytes| <= total
  {
    hide Heard;
  }

  /** Reads the line until it is empty between frames, handing every frame to `decode_pkg`. */
  method GetPkg(m: Manager, rx: F.Receiver, line: U.Receiver, arriving: nat)
    returns (out: Outcome, sent: seq<Output>, ghost call: Call)
    requires m.Valid() && rx.Valid() && line.Valid()
    requires m.Repr() !! rx.Repr() !! line.Repr()
    modifies m.Repr(), rx.Repr(), line.Repr()
    ensures m.Valid() && rx.Valid() && line.Valid() && line.Line() == old(line.Line())
    ensures call.out == out && call.arriving == arriving
    ensures F.Proper(old(Now(rx, line)).stand) && Makes(old(Now(rx, line)), call, |line.Line()|)
    ensures Now(rx, line) == Next(old(Now(rx, line)), call)
    ensures Ran(old(m.Abs()), m.Abs(), PacketEvents(call.frames), sent)
    ensures out.Returned? ==> !rx.start && rx.count == 2
  {
    hide Manager.Valid, Manager.Abs, U.Receiver.Valid, F.Receiver.Valid, PacketEvents, Ran, Consistent, Justified, U.Receiver.Line, Now,
      Makes, Next, Judged, AllAccepted, Underway;
    m.AbsConsistent();
    ghost var s, mo := m.Abs(), Now(rx, line);
    ghost var arrived := Deliver(m, rx, line, arriving);
    ghost var bytes, frames := [], [];
    sent := [];
    NoneRejected(s);
    while true
      invariant m.Valid() && rx.Valid() && line.Valid() && line.Line() == old(line.Line())
      invariant Underway(mo, Now(rx, line), arrived, |line.Line()|, bytes, frames)
      invariant Ran(s, m.Abs(), PacketEvents(frames), sent) && AllAccepted(frames)
      decreases |line.Line()| - |bytes|
    {
      var turn;
      ghost var more;
      turn, more := NextByteBeside(m, rx, line, mo, arrived, bytes, frames);
      UnderwayBounds(mo, Now(rx, line), arrived, |line.Line()|, bytes + more, frames + (if turn.Handle? then [turn.f] else []));
      bytes := bytes + more;
      assert frames + [] == frames;
      if turn.End? {
        out := turn.out;
        EndJudged(out, frames);
        break;
      }
      if turn.Handle? {
        var end;
        end, sent, frames := HandleBeside(m, rx, line, turn.f, s, frames, sent);
        if end.Some? {
          out := end.value;
          break;
        }
        assert frames + [] == frames;
      }
    }
    call := Call(arriving, arrived, bytes, frames, out, |line.stored|);
    CallIsMade(mo, call, rx, line);
  }

  /** Hands a frame over, beside the receiver and the line; the call may end with it. */
  method HandleBeside(m: Manager, rx: F.Receiver, line: U.Receiver, f: Frame, ghost s: State, ghost frames: seq<Frame>, sent: seq<Output>)
    returns (end: Option<Outcome>, all: seq<Output>, ghost handed: seq<Frame>)
    requires m.Valid() && rx.Valid() && line.Valid() && m.Repr() !! rx.Repr() !! line.Repr()
    requires Ran(s, m.Abs(), PacketEvents(frames), sent) && AllAccepted(frames)
    modifies m.Repr()
    ensures m.Valid() && rx.Valid() && line.Valid() && Now(rx, line) == old(Now(rx, line)) && line.Line() == old(line.Line())
    ensures Ran(s, m.Abs(), PacketEvents(handed), all)
    ensures frames + [f] == handed + if end.Some? then Stopped(end.value) else []
    ensures if end.Some? then Judged(end.value, handed) && end.value != Returned(0) && !end.value.Blocked? else AllAccepted(handed)
  {
    hide Manager.Valid, Manager.Abs, U.Receiver.Valid, F.Receiver.Valid, F.Receiver.Stand, PacketEvents, Ran, PacketFits, Accepted, Judged,
      AllAccepted, U.Receiver.Line;
    if !PacketFits(f) {
      StopJudged(f, frames);
      return Some(OutOfRange(f)), sent, frames;
    }
    PacketEventsMore(frames, f);
    var rc;
    rc, all := HandleFrame(m, f, s, PacketEvents(frames), sent);
    OneMoreJudged(frames, f);
    handed := frames + [f];
    end := if rc == 0 then None else Some(Returned(1));
    assert handed + [] == handed;
  }

  /** What has come of a call. */
  lemma CallIsMade(mo: Moment, c: Call, rx: F.Receiver, line: U.Receiver)
    requires rx.Valid() && line.Valid()
    requires Underway(mo, Now(rx, line), c.arrived, |line.Line()|, c.bytes, c.frames + Stopped(c.out))
    requires mo.stored <= c.arrived && Delivered(mo.stored, c.arriving, |line.Line()|) <= c.arrived && c.stored == |line.stored|
    requires Judged(c.out, c.frames)
    requires c.out == Returned(0) || c.out.Blocked? ==> Justified(c.out, line, rx.start)
    ensures F.Proper(mo.stand) && Makes(mo, c, |line.Line()|) && Now(rx, line) == Next(mo, c)
  {
    hide U.Receiver.Valid, F.Receiver.Valid, F.Receiver.Stand, F.Proper, Judged;
    StandIs(rx);
  }

  lemma StandIs(rx: F.Receiver)
    requires rx.Valid()
    ensures rx.Stand().Filling? <==> rx.start
  {
  }

  lemma NoneRejected(s: State)
    requires Consistent(s)
    ensures Ran(s, s, PacketEvents([]), []) && AllAccepted([])
  {
    hide Consistent;
    RanNothing(s);
    assert PacketEvents([]) == [];
  }

  lemma EndJudged(out: Outcome, frames: seq<Frame>)
    requires AllAccepted(frames) && (out == Blocked || out == Returned(0))
    ensures Judged(out, frames)
  {
    hide Accepted;
  }

  lemma StopJudged(f: Frame, frames: seq<Frame>)
    requires AllAccepted(frames) && !PacketFits(f)
    ensures Judged(OutOfRange(f), frames)
  {
    hide Accepted, PacketFits;
  }

  lemma OneMoreJudged(frames: seq<Frame>, f: Frame)
    requires AllAccepted(frames)
    ensures if Accepted(f) then AllAccepted(frames + [f]) else Judged(Returned(1), frames + [f])
  {
    hide Accepted;
  }

  /** `get_pkg` in the course of a run. */
  method GetPkgMore(m: Manager, rx: F.Receiver, line: U.Receiver, arriving: nat,
                    ghost s: State, ghost es: Events, sent: seq<Output>, ghost mo: Moment, ghost calls: seq<Call>)
    returns (out: Outcome, all: seq<Output>, ghost call: Call)
    requires m.Valid() && rx.Valid() && line.Valid() && m.Repr() !! rx.Repr() !! line.Repr()
    requires Ran(s, m.Abs(), es, sent) && Follows(mo, calls, |line.Line()|, Now(rx, line))
    modifies m.Repr(), rx.Repr(), line.Repr()
    ensures m.Valid() && rx.Valid() && line.Valid() && line.Line() == old(line.Line())
    ensures call.out == out && call.arriving == arriving
    ensures Ran(s, m.Abs(), es + PacketEvents(call.frames), all) && Follows(mo, calls + [call], |line.Line()|, Now(rx, line))
  {
    hide Manager.Valid, Manager.Abs, U.Receiver.Valid, F.Receiver.Valid, PacketEvents, Ran, U.Receiver.Line, Follows, Makes, Next, Now;
    ghost var t, now := m.Abs(), Now(rx, line);
    var these;
    out, these, call := GetPkg(m, rx, line, arriving);
    all := sent + these;
    RanAppend(s, t, m.Abs(), es, PacketEvents(call.frames), sent, these);
    FollowsOne(now, call, |line.Line()|);
    FollowsAppend(mo, calls, now, [call], Now(rx, line), |line.Line()|);
  }

  lemma {:induction false} FramesOfPackets(frames: seq<Frame>)
    ensures FramesOf(PacketEvents(frames)) == frames
    decreases |frames|
  {
    if frames != [] {
      var n := |frames| - 1;
      FramesOfPackets(frames[..n]);
      PacketEventsMore(frames[..n], frames[n]);
      assert frames == frames[..n] + [frames[n]];
      OfMore(PacketEvents(frames[..n]), Packet(frames[n]));
    }
  }

  // Results

  /** A collect event for each ready chip among the first n. */
  function Collects(answers: seq<Option<U32>>, n: nat): Events
    requires n <= |answers|
  {
    if n == 0 then []
    else Collects(answers, n - 1) + (match answers[n - 1] case Some(a) => [Collect(n - 1, a)] case None => [])
  }

  /** A result pass: its start, then a collect event for each ready chip. */
  function PassEvents(answers: seq<Option<U32>>, n: nat): Events
    requires n <= |answers|
  {
    [PassStart] + Collects(answers, n)
  }

  lemma PassEventsStart(answers: seq<Option<U32>>)
    ensures PassEvents(answers, 0) == [] + [PassStart]
  {
  }

  lemma PassEventsMore(answers: seq<Option<U32>>, n: nat)
    requires n < |answers|
    ensures answers[n].Some? ==> PassEvents(answers, n + 1) == PassEvents(answers, n) + [Collect(n, answers[n].value)]
    ensures answers[n] == None ==> PassEvents(answers, n + 1) == PassEvents(answers, n)
  {
  }

  lemma ChipPossible(s: State, c: nat, answer: U32)
    requires Consistent(s) && c < CHIP_NUMBER
    ensures Possible(Collect(c, answer)) && Possible(Dispatch(c)) && Possible(PassStart) && Possible(IdleTimeout)
    ensures ManagerSpec.Step(s, Collect(c, answer)) == AfterCollect(s, c, answer)
    ensures ManagerSpec.Step(s, Dispatch(c)) == AfterDispatch(s, c)
  {
    hide AfterCollect, AfterDispatch;
  }

  /** `be200_read_result`; `answers[c]` is what a ready chip c returns. */
  method ReadResult(m: Manager, answers: seq<Option<U32>>)
    requires m.Valid() && |answers| == CHIP_NUMBER
    modifies m.Repr()
    ensures m.Valid() && Ran(old(m.Abs()), m.Abs(), PassEvents(answers, CHIP_NUMBER), [])
  {
    hide Manager.Valid, Manager.Abs, Ran, PassEvents;
    ghost var s := m.Abs();
    StartResults(m, answers);
    for idx := 0 to CHIP_NUMBER
      invariant m.Valid() && Ran(s, m.Abs(), PassEvents(answers, idx), [])
    {
      CollectIfReady(m, answers, idx, s);
    }
  }

  method StartResults(m: Manager, ghost answers: seq<Option<U32>>)
    requires m.Valid()
    modifies m.Repr()
    ensures m.Valid() && Ran(old(m.Abs()), m.Abs(), PassEvents(answers, 0), [])
  {
    hide Manager.Valid, Manager.Abs, ManagerSpec.Step, Consistent, Possible, Ran, PassEvents, Collects, Run, AllPossible;
    m.AbsConsistent();
    ghost var s := m.Abs();
    m.BeginPass();
    ChipPossible(s, 0, 0);
    RanNothing(s);
    RanSilent(s, s, [], [], PassStart);
    PassEventsStart(answers);
  }

  method CollectIfReady(m: Manager, answers: seq<Option<U32>>, chip: nat, ghost s: State)
    requires m.Valid() && chip < |answers| == CHIP_NUMBER && Ran(s, m.Abs(), PassEvents(answers, chip), [])
    modifies m.Repr()
    ensures m.Valid() && Ran(s, m.Abs(), PassEvents(answers, chip + 1), [])
  {
    hide Manager.Valid, Manager.Abs, ManagerSpec.Step, Consistent, Possible, Ran, PassEvents;
    PassEventsMore(answers, chip);
    if answers[chip].Some? {
      var answer := answers[chip].value;
      m.AbsConsistent();
      ChipPossible(m.Abs(), chip, answer);
      RanSilent(s, m.Abs(), PassEvents(answers, chip), [], Collect(chip, answer));
      m.CollectChip(chip, answer);
    }
  }

  // Dispatch

  /** The idle chips among the first n. */
  function IdleChips(idle: seq<bool>, n: nat): seq<nat>
    requires n <= |idle|
  {
    if n == 0 then [] else IdleChips(idle, n - 1) + (if idle[n - 1] then [n - 1] else [])
  }

  lemma IdleChipsMore(idle: seq<bool>, n: nat)
    requires n < |idle|
    ensures IdleChips(idle, n + 1) == IdleChips(idle, n) + (if idle[n] then [n] else [])
  {
  }

  /** The idle chips seen first. */
  lemma {:induction false} IdleChipsPrefix(idle: seq<bool>, n: nat, all: nat)
    requires n <= all <= |idle|
    ensures |IdleChips(idle, n)| <= |IdleChips(idle, all)| && IdleChips(idle, all)[..|IdleChips(idle, n)|] == IdleChips(idle, n)
    decreases all
  {
    if n < all {
      IdleChipsPrefix(idle, n, all - 1);
    }
  }

  /** A dispatch to each of the chips, in order, and after each the packets of a call of `get_pkg`. */
  function ServedEvents(chips: seq<nat>, calls: seq<Call>): Events
    requires |chips| == |calls|
  {
    if chips == [] then []
    else
      var n := |chips| - 1;
      ServedEvents(chips[..n], calls[..n]) + ([Dispatch(chips[n])] + PacketEvents(calls[n].frames))
  }

  /** The bytes that come in before the call after a chip was served. */
  predicate ArrivalsAre(arrivals: seq<nat>, chips: seq<nat>, calls: seq<Call>)
    requires |chips| == |calls|
  {
    forall i :: 0 <= i < |chips| ==> chips[i] + 1 < |arrivals| && calls[i].arriving == arrivals[chips[i] + 1]
  }

  /** So the chips were served. */
  predicate Serves(es: Events, arrivals: seq<nat>, chips: seq<nat>, calls: seq<Call>) {
    |chips| == |calls| && es == ServedEvents(chips, calls) && ArrivalsAre(arrivals, chips, calls)
  }

  lemma ServesNone(arrivals: seq<nat>)
    ensures Serves([], arrivals, [], [])
  {
  }

  lemma ServesOne(arrivals: seq<nat>, chip: nat, call: Call)
    requires chip + 1 < |arrivals| && call.arriving == arrivals[chip + 1]
    ensures Serves([Dispatch(chip)] + PacketEvents(call.frames), arrivals, [chip], [call])
  {
    var x, y := [chip], [call];
    assert x[..0] == [] && y[..0] == [];
    assert [] + ([Dispatch(chip)] + PacketEvents(call.frames)) == [Dispatch(chip)] + PacketEvents(call.frames);
  }

  lemma ServedNext(x: seq<nat>, a: seq<Call>, chip: nat, c: Call)
    requires |x| == |a|
    ensures ServedEvents(x + [chip], a + [c]) == ServedEvents(x, a) + ([Dispatch(chip)] + PacketEvents(c.frames))
  {
    hide PacketEvents;
    assert (x + [chip])[..|x|] == x && (a + [c])[..|a|] == a;
  }

  lemma LastOff<T>(a: seq<T>, b: seq<T>)
    requires b != []
    ensures b == b[..|b| - 1] + [b[|b| - 1]] && a + b == a + b[..|b| - 1] + [b[|b| - 1]]
  {
  }

  lemma {:induction false} ServedAppend(x: seq<nat>, a: seq<Call>, y: seq<nat>, b: seq<Call>)
    requires |x| == |a| && |y| == |b|
    ensures ServedEvents(x + y, a + b) == ServedEvents(x, a) + ServedEvents(y, b)
    decreases |y|
  {
    if y == [] {
      assert x + y == x && a + b == a;
    } else {
      hide *;
      LastOff(x, y);
      LastOff(a, b);
      var front, log, chip, c := y[..|y| - 1], b[..|b| - 1], y[|y| - 1], b[|b| - 1];
      ServedAppend(x, a, front, log);
      ServedNext(x + front, a + log, chip, c);
      ServedNext(front, log, chip, c);
      Joined(ServedEvents(x, a), ServedEvents(front, log), [Dispatch(chip)] + PacketEvents(c.frames));
    }
  }

  lemma ServesAppend(es: Events, more: Events, arrivals: seq<nat>, x: seq<nat>, a: seq<Call>, y: seq<nat>, b: seq<Call>)
    requires Serves(es, arrivals, x, a) && Serves(more, arrivals, y, b)
    ensures Serves(es + more, arrivals, x + y, a + b)
  {
    hide ServedEvents;
    ServedAppend(x, a, y, b);
  }

  lemma {:induction false} FramesOfServed(chips: seq<nat>, calls: seq<Call>)
    requires |chips| == |calls|
    ensures FramesOf(ServedEvents(chips, calls)) == FramesIn(calls)
    decreases |chips|
  {
    hide FramesOf, ChipsOf, PacketEvents;
    if chips == [] {
      NoFramesIn();
    } else {
      var n := |chips| - 1;
      var front, e, ps := ServedEvents(chips[..n], calls[..n]), Dispatch(chips[n]), PacketEvents(calls[n].frames);
      FramesOfServed(chips[..n], calls[..n]);
      OfAppend(front, [e] + ps);
      OfAppend([e], ps);
      OfMore([], e);
      NoFramesIn();
      assert [] + [e] == [e];
      FramesOfPackets(calls[n].frames);
    }
  }

  lemma NoFramesIn()
    ensures FramesOf([]) == []
  {
  }

  lemma DispatchStep(s: State, chip: nat)
    requires Consistent(s) && chip < CHIP_NUMBER
    ensures Possible(Dispatch(chip)) && ManagerSpec.Step(s, Dispatch(chip)) == AfterDispatch(s, chip)
    ensures AllMeet([Handed(chip, TaskSent(s))], WantedBy(s, Dispatch(chip)))
  {
    hide AfterDispatch, TaskSent, Consistent;
  }

  /** New work for an idle chip. */
  method DispatchMore(m: Manager, work: Miner.Work, chip: nat, ghost s: State, ghost es: Events, sent: seq<Output>)
    returns (all: seq<Output>)
    requires m.Valid() && work.Valid() && work.Repr() !! m.Repr() && chip < CHIP_NUMBER
    requires Ran(s, m.Abs(), es, sent)
    modifies m.Repr(), work.Repr()
    ensures m.Valid() && work.Valid() && Ran(s, m.Abs(), es + [Dispatch(chip)], all)
  {
    hide Manager.Valid, Manager.Abs, ManagerSpec.Step, Consistent, Possible, Ran, AfterDispatch, TaskSent, AllMeet, WantedBy;
    m.AbsConsistent();
    DispatchStep(m.Abs(), chip);
    RanMore(s, m.Abs(), es, sent, Dispatch(chip), [Handed(chip, TaskSent(m.Abs()))]);
    m.DispatchTo(chip, work);
    all := sent + [Handed(chip, work.data[..])];
  }

  /** New work for an idle chip, beside the receiver and the line. */
  method DispatchBeside(m: Manager, rx: F.Receiver, line: U.Receiver, work: Miner.Work, chip: nat,
                        ghost s: State, ghost es: Events, sent: seq<Output>)
    returns (all: seq<Output>)
    requires m.Valid() && rx.Valid() && line.Valid() && work.Valid()
    requires m.Repr() !! rx.Repr() !! line.Repr() !! work.Repr()
    requires chip < CHIP_NUMBER && Ran(s, m.Abs(), es, sent)
    modifies m.Repr(), work.Repr()
    ensures m.Valid() && rx.Valid() && line.Valid() && work.Valid()
    ensures Now(rx, line) == old(Now(rx, line)) && line.Line() == old(line.Line())
    ensures Ran(s, m.Abs(), es + [Dispatch(chip)], all)
  {
    hide Manager.Valid, Manager.Abs, U.Receiver.Valid, F.Receiver.Valid, F.Receiver.Stand, Ran, U.Receiver.Line, Now;
    all := DispatchMore(m, work, chip, s, es, sent);
  }

  /** One turn of the dispatch loop. */
  method ServeIfIdle(m: Manager, rx: F.Receiver, line: U.Receiver, work: Miner.Work, p: Pass, chip: nat,
                     ghost s: State, ghost es: Events, sent: seq<Output>, ghost mo: Moment, ghost calls: seq<Call>)
    returns (out: Outcome, all: seq<Output>, ghost more: Events, ghost log: seq<Call>)
    requires m.Valid() && rx.Valid() && line.Valid() && work.Valid()
    requires m.Repr() !! rx.Repr() !! line.Repr() !! work.Repr()
    requires Fits(p) && chip < CHIP_NUMBER && Ran(s, m.Abs(), es, sent) && Follows(mo, calls, |line.Line()|, Now(rx, line))
    modifies m.Repr(), rx.Repr(), line.Repr(), work.Repr()
    ensures m.Valid() && rx.Valid() && line.Valid() && work.Valid() && line.Line() == old(line.Line())
    ensures Ran(s, m.Abs(), es + more, all) && Follows(mo, calls + log, |line.Line()|, Now(rx, line))
    ensures Serves(more, p.arrivals, if p.idle[chip] then [chip] else [], log) && EndsIn(log, out)
  {
    hide Manager.Valid, Manager.Abs, U.Receiver.Valid, F.Receiver.Valid, Ran, Serves, PacketEvents, U.Receiver.Line, Follows, Now;
    if !p.idle[chip] {
      Unchanged(es, calls);
      ServesNone(p.arrivals);
      return Returned(0), sent, [], [];
    }
    var handed := DispatchBeside(m, rx, line, work, chip, s, es, sent);
    ghost var e := Dispatch(chip);
    ghost var call;
    out, all, call := GetPkgMore(m, rx, line, p.arrivals[chip + 1], s, es + [e], handed, mo, calls);
    ServesOne(p.arrivals, chip, call);
    Joined(es, [e], PacketEvents(call.frames));
    more, log := [e] + PacketEvents(call.frames), [call];
    OneEnds(call);
  }

  lemma OneEnds(call: Call)
    ensures EndsIn([call], call.out)
  {
  }

  lemma Unchanged(es: Events, calls: seq<Call>)
    ensures es + [] == es && calls + [] == calls
  {
  }

  lemma Joined<T>(a: seq<T>, b: seq<T>, c: seq<T>)
    ensures a + b + c == a + (b + c)
  {
  }

  /** The dispatch loop; `seen` chips were looked at when it ended. */
  method ServeAll(m: Manager, rx: F.Receiver, line: U.Receiver, work: Miner.Work, p: Pass,
                  ghost s: State, ghost es: Events, sent: seq<Output>, ghost mo: Moment, ghost calls: seq<Call>)
    returns (out: Outcome, all: seq<Output>, ghost more: Events, ghost log: seq<Call>, ghost seen: nat)
    requires m.Valid() && rx.Valid() && line.Valid() && work.Valid()
    requires m.Repr() !! rx.Repr() !! line.Repr() !! work.Repr()
    requires Fits(p) && Ran(s, m.Abs(), es, sent) && Follows(mo, calls, |line.Line()|, Now(rx, line))
    modifies m.Repr(), rx.Repr(), line.Repr(), work.Repr()
    ensures m.Valid() && rx.Valid() && line.Valid() && work.Valid() && line.Line() == old(line.Line())
    ensures Ran(s, m.Abs(), es + more, all) && Follows(mo, calls + log, |line.Line()|, Now(rx, line))
    ensures seen <= CHIP_NUMBER && Serves(more, p.arrivals, IdleChips(p.idle, seen), log)
    ensures EndsIn(log, out) && (out.Returned? ==> seen == CHIP_NUMBER)
  {
    hide Manager.Valid, Manager.Abs, U.Receiver.Valid, F.Receiver.Valid, U.Receiver.Line, Now, ServedSoFar, Ran, Follows, Fits, Serves, EndsIn,
      IdleChips, Miner.Work.Valid, Manager.Separate;
    out, all, more, log, seen := Returned(0), sent, [], [], 0;
    NoneServed(p, s, m.Abs(), es, sent, mo, calls, Now(rx, line), |line.Line()|);
    for chip := 0 to CHIP_NUMBER
      invariant m.Valid() && rx.Valid() && line.Valid() && work.Valid() && line.Line() == old(line.Line()) && out.Returned?
      invariant ServedSoFar(p, chip, s, m.Abs(), es, more, all, mo, calls, log, Now(rx, line), |line.Line()|, out)
    {
      out, all, more, log := ServeNext(m, rx, line, work, p, chip, s, es, all, mo, calls, more, log, out);
      seen := chip + 1;
      if !out.Returned? {
        break;
      }
    }
    if out.Returned? {
      seen := CHIP_NUMBER;
    }
    ServedIs(p, seen, s, m.Abs(), es, more, all, mo, calls, log, Now(rx, line), |line.Line()|, out);
  }

  /** The dispatch loop after n chips. */
  ghost predicate ServedSoFar(p: Pass, n: nat, s: State, t: State, es: Events, more: Events, all: seq<Output>,
                              mo: Moment, calls: seq<Call>, log: seq<Call>, e: Moment, total: nat, out: Outcome)
  {
    && Fits(p) && n <= CHIP_NUMBER && Ran(s, t, es + more, all) && Follows(mo, calls + log, total, e)
    && Serves(more, p.arrivals, IdleChips(p.idle, n), log) && EndsIn(log, out)
  }

  lemma ServedIs(p: Pass, n: nat, s: State, t: State, es: Events, more: Events, all: seq<Output>,
                 mo: Moment, calls: seq<Call>, log: seq<Call>, e: Moment, total: nat, out: Outcome)
    requires ServedSoFar(p, n, s, t, es, more, all, mo, calls, log, e, total, out)
    ensures Fits(p) && n <= CHIP_NUMBER && Ran(s, t, es + more, all) && Follows(mo, calls + log, total, e)
    ensures Serves(more, p.arrivals, IdleChips(p.idle, n), log) && EndsIn(log, out)
  {
    hide Fits, Ran, Follows, Serves, IdleChips, EndsIn;
  }

  /** One more chip. */
  method ServeNext(m: Manager, rx: F.Receiver, line: U.Receiver, work: Miner.Work, p: Pass, chip: nat,
                   ghost s: State, ghost es: Events, sent: seq<Output>, ghost mo: Moment, ghost calls: seq<Call>,
                   ghost served: Events, ghost log: seq<Call>, ghost last: Outcome)
    returns (out: Outcome, all: seq<Output>, ghost more: Events, ghost logged: seq<Call>)
    requires m.Valid() && rx.Valid() && line.Valid() && work.Valid()
    requires m.Repr() !! rx.Repr() !! line.Repr() !! work.Repr() && chip < CHIP_NUMBER && last.Returned?
    requires ServedSoFar(p, chip, s, m.Abs(), es, served, sent, mo, calls, log, Now(rx, line), |line.Line()|, last)
    modifies m.Repr(), rx.Repr(), line.Repr(), work.Repr()
    ensures m.Valid() && rx.Valid() && line.Valid() && work.Valid() && line.Line() == old(line.Line())
    ensures ServedSoFar(p, chip + 1, s, m.Abs(), es, more, all, mo, calls, logged, Now(rx, line), |line.Line()|, out)
  {
    hide Manager.Valid, Manager.Abs, U.Receiver.Valid, F.Receiver.Valid, U.Receiver.Line, Now, ServedSoFar, Fits, Ran, Follows, Serves, EndsIn;
    ServedIs(p, chip, s, m.Abs(), es, served, sent, mo, calls, log, Now(rx, line), |line.Line()|, last);
    ghost var extra, these;
    out, all, extra, these := ServeIfIdle(m, rx, line, work, p, chip, s, es + served, sent, mo, calls + log);
    ServedMore(p, chip, s, m.Abs(), es, served, extra, all, mo, calls, log, these, Now(rx, line), |line.Line()|, last, out);
    more, logged := served + extra, log + these;
  }

  lemma ServedMore(p: Pass, chip: nat, s: State, t: State, es: Events, served: Events, extra: Events, all: seq<Output>, mo: Moment,
                   calls: seq<Call>, log: seq<Call>, these: seq<Call>, e: Moment, total: nat, last: Outcome, out: Outcome)
    requires Fits(p) && chip < CHIP_NUMBER && Ran(s, t, es + served + extra, all) && Follows(mo, calls + log + these, total, e)
    requires Serves(served, p.arrivals, IdleChips(p.idle, chip), log) && EndsIn(log, last) && last.Returned?
    requires Serves(extra, p.arrivals, if p.idle[chip] then [chip] else [], these) && EndsIn(these, out)
    ensures ServedSoFar(p, chip + 1, s, t, es, served + extra, all, mo, calls, log + these, e, total, out)
  {
    hide Ran, Follows, Serves, IdleChips, AllReturned;
    Joined(es, served, extra);
    Joined(calls, log, these);
    ServesAppend(served, extra, p.arrivals, IdleChips(p.idle, chip), log, if p.idle[chip] then [chip] else [], these);
    IdleChipsMore(p.idle, chip);
    EndsAppend(log, these, out);
  }

  lemma NoneServed(p: Pass, s: State, t: State, es: Events, sent: seq<Output>, mo: Moment, calls: seq<Call>, e: Moment, total: nat)
    requires Fits(p) && Ran(s, t, es, sent) && Follows(mo, calls, total, e)
    ensures ServedSoFar(p, 0, s, t, es, [], sent, mo, calls, [], e, total, Returned(0))
  {
    hide Ran, Follows;
    Unchanged(es, calls);
    ServesNone(p.arrivals);
  }

  // The main loop

  /** What the environment does during one pass: how many more bytes have come in at least when
      `get_pkg` is called first, and when it is called after serving a chip; whether the idle timer has
      run out, which chips are idle, and what the ready chips answer. */
  datatype Pass = Pass(arrivals: seq<nat>, expired: bool, idle: seq<bool>, answers: seq<Option<U32>>)

  predicate Fits(p: Pass) { |p.idle| == |p.answers| == CHIP_NUMBER && |p.arrivals| == CHIP_NUMBER + 1 }

  function TimerEvents(p: Pass): Events { if p.expired then [IdleTimeout] else [] }

  /** The events up to the question whether there is a job. */
  function Opening(p: Pass, call: Call): Events { PacketEvents(call.frames) + TimerEvents(p) }

  /** The events of one pass from t on, and its calls of `get_pkg`: the packets of the first one, the
      timer, and while there is a job a dispatch to each idle chip in order, each with the packets of a
      call, and a look at each ready chip. If a call does not return the pass ends there. */
  ghost predicate IsPass(t: State, p: Pass, es: Events, calls: seq<Call>, out: Outcome)
    requires Consistent(t) && Fits(p)
  {
    && calls != [] && calls[0].arriving == p.arrivals[0] && EndsIn(calls, out)
    && (if !calls[0].out.Returned? then |calls| == 1 && es == PacketEvents(calls[0].frames)
        else
          && AllPossible(Opening(p, calls[0]))
          && if Run(t, Opening(p, calls[0])).newStratum then IsRest(p, Opening(p, calls[0]), es, calls[1..], out)
             else |calls| == 1 && es == Opening(p, calls[0]))
  }

  /** The part of a pass after its opening. */
  ghost predicate IsRest(p: Pass, before: Events, es: Events, calls: seq<Call>, out: Outcome)
    requires Fits(p)
  {
    var chips := IdleChips(p.idle, CHIP_NUMBER);
    && |calls| <= |chips| && ArrivalsAre(p.arrivals, chips[..|calls|], calls)
    && (if out.Returned? then |calls| == |chips| && es == before + ServedEvents(chips, calls) + PassEvents(p.answers, CHIP_NUMBER)
        else es == before + ServedEvents(chips[..|calls|], calls))
  }

  /** The timer check of the main loop. */
  method CheckTimer(m: Manager, p: Pass, ghost s: State, ghost es: Events, sent: seq<Output>) returns (working: bool)
    requires m.Valid() && Ran(s, m.Abs(), es, sent)
    modifies m.Repr()
    ensures m.Valid() && Ran(s, m.Abs(), es + TimerEvents(p), sent) && working == m.Abs().newStratum
  {
    hide Manager.Valid, Manager.Abs, Ran, Consistent, ManagerSpec.Step, Possible;
    if p.expired {
      m.AbsConsistent();
      ChipPossible(m.Abs(), 0, 0);
      RanSilent(s, m.Abs(), es, sent, IdleTimeout);
      m.Timeout();
    } else {
      assert es + [] == es;
    }
    CountersAre(m);
    working := m.v.newStratum;
  }

  lemma TimerFrames(es: Events, p: Pass)
    ensures FramesOf(es + TimerEvents(p)) == FramesOf(es)
  {
    if p.expired {
      OfMore(es, IdleTimeout);
    } else {
      assert es + [] == es;
    }
  }

  /** The timer check, beside the receiver and the line. */
  method TimerBeside(m: Manager, rx: F.Receiver, line: U.Receiver, p: Pass,
                     ghost s: State, ghost es: Events, sent: seq<Output>) returns (working: bool)
    requires m.Valid() && rx.Valid() && line.Valid()
    requires m.Repr() !! rx.Repr() !! line.Repr() && Ran(s, m.Abs(), es, sent)
    modifies m.Repr()
    ensures m.Valid() && rx.Valid() && line.Valid()
    ensures Now(rx, line) == old(Now(rx, line)) && line.Line() == old(line.Line())
    ensures Ran(s, m.Abs(), es + TimerEvents(p), sent) && working == m.Abs().newStratum
  {
    hide Manager.Valid, Manager.Abs, U.Receiver.Valid, F.Receiver.Valid, F.Receiver.Stand, Ran, TimerEvents, U.Receiver.Line;
    working := CheckTimer(m, p, s, es, sent);
  }

  /** The result pass, beside the receiver and the line. */
  method ResultsBeside(m: Manager, rx: F.Receiver, line: U.Receiver, answers: seq<Option<U32>>,
                       ghost s: State, ghost es: Events, sent: seq<Output>)
    requires m.Valid() && rx.Valid() && line.Valid()
    requires m.Repr() !! rx.Repr() !! line.Repr() && Ran(s, m.Abs(), es, sent) && |answers| == CHIP_NUMBER
    modifies m.Repr()
    ensures m.Valid() && rx.Valid() && line.Valid()
    ensures Now(rx, line) == old(Now(rx, line)) && line.Line() == old(line.Line())
    ensures Ran(s, m.Abs(), es + PassEvents(answers, CHIP_NUMBER), sent)
  {
    hide Manager.Valid, Manager.Abs, U.Receiver.Valid, F.Receiver.Valid, F.Receiver.Stand, Ran, PassEvents, U.Receiver.Line;
    ghost var t := m.Abs();
    ReadResult(m, answers);
    RanAppend(s, t, m.Abs(), es, PassEvents(answers, CHIP_NUMBER), sent, []);
    assert sent + [] == sent;
  }

  lemma {:induction false} NoFrames(answers: seq<Option<U32>>, n: nat)
    requires n <= |answers|
    ensures FramesOf(PassEvents(answers, n)) == []
  {
    if n == 0 {
      assert PassEvents(answers, 0) == [] + [PassStart];
      OfMore([], PassStart);
    } else {
      NoFrames(answers, n - 1);
      PassEventsMore(answers, n - 1);
      if answers[n - 1].Some? {
        OfMore(PassEvents(answers, n - 1), Collect(n - 1, answers[n - 1].value));
      }
    }
  }

  lemma RanIs(s: State, t: State, es: Events, sent: seq<Output>)
    requires Ran(s, t, es, sent)
    ensures Consistent(s) && AllPossible(es) && t == Run(s, es)
  {
  }

  /** The start of a pass: packets, then the timer. */
  method Prologue(m: Manager, rx: F.Receiver, line: U.Receiver, p: Pass)
    returns (out: Outcome, working: bool, sent: seq<Output>, ghost call: Call, ghost es: Events)
    requires m.Valid() && rx.Valid() && line.Valid() && m.Repr() !! rx.Repr() !! line.Repr() && Fits(p)
    modifies m.Repr(), rx.Repr(), line.Repr()
    ensures m.Valid() && rx.Valid() && line.Valid() && line.Line() == old(line.Line())
    ensures Ran(old(m.Abs()), m.Abs(), es, sent)
    ensures Follows(old(Now(rx, line)), [call], |line.Line()|, Now(rx, line)) && call.out == out && call.arriving == p.arrivals[0]
    ensures if out.Returned? then es == Opening(p, call) && working == m.Abs().newStratum else es == PacketEvents(call.frames)
  {
    hide Manager.Valid, Manager.Abs, U.Receiver.Valid, F.Receiver.Valid, Ran, TimerEvents, PacketEvents, U.Receiver.Line, Follows, Now,
      Makes, Next;
    ghost var t, mo := m.Abs(), Now(rx, line);
    out, sent, call := GetPkg(m, rx, line, p.arrivals[0]);
    FollowsOne(mo, call, |line.Line()|);
    es := PacketEvents(call.frames);
    working := false;
    if out.Returned? {
      working := TimerBeside(m, rx, line, p, t, es, sent);
      es := es + TimerEvents(p);
    }
  }

  /** The rest of a pass while there is a job. */
  method Work(m: Manager, rx: F.Receiver, line: U.Receiver, work: Miner.Work, p: Pass,
              ghost s: State, ghost es: Events, sent: seq<Output>, ghost mo: Moment, ghost call: Call)
    returns (out: Outcome, all: seq<Output>, ghost more: Events, ghost calls: seq<Call>)
    requires m.Valid() && rx.Valid() && line.Valid() && work.Valid()
    requires m.Repr() !! rx.Repr() !! line.Repr() !! work.Repr()
    requires Fits(p) && Ran(s, m.Abs(), es, sent) && Follows(mo, [call], |line.Line()|, Now(rx, line)) && call.out.Returned?
    modifies m.Repr(), rx.Repr(), line.Repr(), work.Repr()
    ensures m.Valid() && rx.Valid() && line.Valid() && work.Valid() && line.Line() == old(line.Line())
    ensures Ran(s, m.Abs(), more, all) && Follows(mo, calls, |line.Line()|, Now(rx, line))
    ensures calls != [] && calls[0] == call && EndsIn(calls, out) && IsRest(p, es, more, calls[1..], out)
  {
    hide Manager.Valid, Manager.Abs, U.Receiver.Valid, F.Receiver.Valid, Ran, U.Receiver.Line, Follows, Now, EndsIn, Serves, PassEvents,
      IdleChips, IsRest;
    ghost var served, log, seen;
    out, all, served, log, seen := ServeAll(m, rx, line, work, p, s, es, sent, mo, [call]);
    calls := [call] + log;
    EndsAppend([call], log, out);
    assert calls[1..] == log;
    RestIs(p, es, served, log, seen, out);
    more := es + served;
    if out.Returned? {
      ResultsBeside(m, rx, line, p.answers, s, more, all);
      more := more + PassEvents(p.answers, CHIP_NUMBER);
    } else {
      assert more + [] == more;
    }
  }

  lemma RestIs(p: Pass, before: Events, served: Events, log: seq<Call>, seen: nat, out: Outcome)
    requires Fits(p) && seen <= CHIP_NUMBER && Serves(served, p.arrivals, IdleChips(p.idle, seen), log)
    requires out.Returned? ==> seen == CHIP_NUMBER
    ensures IsRest(p, before, before + served + if out.Returned? then PassEvents(p.answers, CHIP_NUMBER) else [], log, out)
  {
    hide IdleChips, ServedEvents, PassEvents;
    IdleChipsPrefix(p.idle, seen, CHIP_NUMBER);
    assert before + served + [] == before + served;
  }

  /** One pass of the main loop. */
  method MainPass(m: Manager, rx: F.Receiver, line: U.Receiver, work: Miner.Work, p: Pass)
    returns (out: Outcome, sent: seq<Output>, ghost es: Events, ghost calls: seq<Call>)
    requires m.Valid() && rx.Valid() && line.Valid() && work.Valid()
    requires m.Repr() !! rx.Repr() !! line.Repr() !! work.Repr() && Fits(p)
    modifies m.Repr(), rx.Repr(), line.Repr(), work.Repr()
    ensures m.Valid() && rx.Valid() && line.Valid() && work.Valid() && line.Line() == old(line.Line())
    ensures Ran(old(m.Abs()), m.Abs(), es, sent)
    ensures Follows(old(Now(rx, line)), calls, |line.Line()|, Now(rx, line))
    ensures Consistent(old(m.Abs())) && IsPass(old(m.Abs()), p, es, calls, out)
  {
    hide Manager.Valid, Manager.Abs, U.Receiver.Valid, F.Receiver.Valid, Ran, Follows, Now, Consistent, TimerEvents, Run, AllPossible,
      U.Receiver.Line, EndsIn, IsRest, Opening, PacketEvents;
    ghost var t, mo := m.Abs(), Now(rx, line);
    m.AbsConsistent();
    var working;
    ghost var call;
    out, working, sent, call, es := Prologue(m, rx, line, p);
    calls := [call];
    OneEnds(call);
    if !out.Returned? {
      return;
    }
    RanIs(t, m.Abs(), es, sent);
    if working {
      out, sent, es, calls := Work(m, rx, line, work, p, t, es, sent, mo, call);
    }
  }

  // What a pass does, chip by chip

  /** The chips served are the idle ones, the lowest first. */
  lemma {:induction false} IdleExact(idle: seq<bool>, n: nat)
    requires n <= |idle|
    ensures forall c :: c in IdleChips(idle, n) <==> 0 <= c < n && idle[c]
    ensures forall i, k :: 0 <= i < k < |IdleChips(idle, n)| ==> IdleChips(idle, n)[i] < IdleChips(idle, n)[k]
  {
    if n > 0 {
      IdleExact(idle, n - 1);
      var front := IdleChips(idle, n - 1);
      forall i | 0 <= i < |front| ensures front[i] < n - 1 {
        assert front[i] in front;
      }
    }
  }

  /** A ready chip below n and its answer. */
  predicate Ready(e: Event, answers: seq<Option<U32>>, n: nat)
    requires n <= |answers|
  {
    e.Collect? && e.chip < n && answers[e.chip] == Some(e.answer)
  }

  /** The chips looked at are the ready ones, with their answers, the lowest first. */
  lemma {:induction false} CollectsExact(answers: seq<Option<U32>>, n: nat)
    requires n <= |answers|
    ensures forall e :: e in Collects(answers, n) <==> Ready(e, answers, n)
    ensures forall i :: 0 <= i < |Collects(answers, n)| ==> Collects(answers, n)[i].Collect?
    ensures forall i, k :: 0 <= i < k < |Collects(answers, n)| ==> Collects(answers, n)[i].chip < Collects(answers, n)[k].chip
  {
    if n > 0 {
      CollectsExact(answers, n - 1);
      var front, all := Collects(answers, n - 1), Collects(answers, n);
      forall i | 0 <= i < |front| ensures front[i].Collect? && front[i].chip < n - 1 {
        assert front[i] in front;
        assert Ready(front[i], answers, n - 1);
      }
      var last := if answers[n - 1].Some? then [Collect(n - 1, answers[n - 1].value)] else [];
      assert all == front + last;
      forall e ensures e in all <==> Ready(e, answers, n) {
        assert e in front <==> Ready(e, answers, n - 1);
        assert e in last <==> Ready(e, answers, n) && e.chip == n - 1;
      }
    }
  }

  lemma {:induction false} ChipsOfPackets(frames: seq<Frame>)
    ensures ChipsOf(PacketEvents(frames)) == []
    decreases |frames|
  {
    if frames != [] {
      var n := |frames| - 1;
      ChipsOfPackets(frames[..n]);
      PacketEventsMore(frames[..n], frames[n]);
      assert frames == frames[..n] + [frames[n]];
      OfMore(PacketEvents(frames[..n]), Packet(frames[n]));
    }
  }

  /** The dispatches are those to the chips, in order. */
  lemma {:induction false} ServedChips(chips: seq<nat>, calls: seq<Call>)
    requires |chips| == |calls|
    ensures ChipsOf(ServedEvents(chips, calls)) == chips
    decreases |chips|
  {
    if chips == [] {
      assert ChipsOf([]) == [];
    } else {
      hide *;
      LastOff([], chips);
      LastOff([], calls);
      var front, log, chip, c := chips[..|chips| - 1], calls[..|calls| - 1], chips[|chips| - 1], calls[|calls| - 1];
      ServedChips(front, log);
      ServedNext(front, log, chip, c);
      ChipsOfPackets(c.frames);
      OneDispatch(ServedEvents(front, log), Dispatch(chip), PacketEvents(c.frames));
    }
  }

  /** Each call comes after its dispatch. */
  lemma {:induction false} ServedFirst(chips: seq<nat>, calls: seq<Call>)
    requires |chips| == |calls| && chips != []
    ensures ServedEvents(chips, calls) != [] && ServedEvents(chips, calls)[0] == Dispatch(chips[0])
    decreases |chips|
  {
    hide PacketEvents;
    if |chips| > 1 {
      ServedFirst(chips[..|chips| - 1], calls[..|calls| - 1]);
    }
  }

  lemma OneDispatch(front: Events, e: Event, ps: Events)
    requires e.Dispatch? && ChipsOf(ps) == []
    ensures ChipsOf(front + ([e] + ps)) == ChipsOf(front) + [e.chip]
  {
    hide FramesOf;
    OfAppend(front, [e] + ps);
    OfAppend([e], ps);
    OfMore([], e);
    assert [] + [e] == [e] && ChipsOf([]) == [];
    assert [] + [e.chip] + [] == [e.chip];
  }

  lemma {:induction false} NoDispatch(es: Events)
    requires forall i :: 0 <= i < |es| ==> !es[i].Dispatch?
    ensures ChipsOf(es) == []
    decreases |es|
  {
    if es != [] {
      NoDispatch(es[..|es| - 1]);
    }
  }

  lemma NoChips(answers: seq<Option<U32>>, n: nat)
    requires n <= |answers|
    ensures ChipsOf(PassEvents(answers, n)) == []
  {
    hide ChipsOf, Collects;
    CollectsExact(answers, n);
    NoDispatch(PassEvents(answers, n));
  }

  lemma OpeningChips(p: Pass, call: Call)
    ensures ChipsOf(Opening(p, call)) == []
  {
    hide PacketEvents;
    ChipsOfPackets(call.frames);
    if p.expired {
      OfMore(PacketEvents(call.frames), IdleTimeout);
    } else {
      assert PacketEvents(call.frames) + [] == PacketEvents(call.frames);
    }
  }

  /** The timer counts after the packets: when it has run out there is no work, even if a SET just came. */
  lemma TimerDecides(t: State, p: Pass, call: Call)
    requires Consistent(t) && AllPossible(Opening(p, call))
    ensures AllPossible(PacketEvents(call.frames))
    ensures Run(t, Opening(p, call)).newStratum <==> !p.expired && Run(t, PacketEvents(call.frames)).newStratum
  {
    hide Consistent, PacketEvents, Possible;
    var ps := PacketEvents(call.frames);
    assert Opening(p, call)[..|ps|] == ps;
    if p.expired {
      OpeningTimer(t, ps);
    } else {
      assert ps + [] == ps;
    }
  }

  lemma OpeningTimer(t: State, ps: Events)
    requires Consistent(t) && AllPossible(ps)
    ensures AllPossible(ps + [IdleTimeout]) && !Run(t, ps + [IdleTimeout]).newStratum
  {
    hide Consistent;
    RunAppend(t, ps, [IdleTimeout]);
    OneEvent(Run(t, ps), IdleTimeout);
  }

  /** A complete pass dispatches to every idle one of the 80 chips, the lowest first, or to none: there
      is work if its packets left some and the timer has not run out. */
  lemma PassServes(t: State, p: Pass, es: Events, calls: seq<Call>, out: Outcome)
    requires Consistent(t) && Fits(p) && IsPass(t, p, es, calls, out) && out.Returned?
    ensures AllPossible(PacketEvents(calls[0].frames))
    ensures ChipsOf(es) == if !p.expired && Run(t, PacketEvents(calls[0].frames)).newStratum then IdleChips(p.idle, 80) else []
  {
    hide Consistent, FramesOf, ChipsOf, PacketEvents, Opening, PassEvents, ServedEvents, IdleChips, Run, AllPossible, ArrivalsAre;
    TimerDecides(t, p, calls[0]);
    OpeningChips(p, calls[0]);
    var chips := IdleChips(p.idle, CHIP_NUMBER);
    if Run(t, Opening(p, calls[0])).newStratum {
      var before, served := Opening(p, calls[0]), ServedEvents(chips, calls[1..]);
      ServedChips(chips, calls[1..]);
      NoChips(p.answers, CHIP_NUMBER);
      OfAppend(before, served);
      OfAppend(before + served, PassEvents(p.answers, CHIP_NUMBER));
      assert [] + chips + [] == chips;
    }
  }

  /** With work it ends with a look at every ready one of the 80 chips. */
  lemma PassCollects(t: State, p: Pass, es: Events, calls: seq<Call>, out: Outcome)
    requires Consistent(t) && Fits(p) && IsPass(t, p, es, calls, out) && out.Returned?
    requires AllPossible(Opening(p, calls[0])) && Run(t, Opening(p, calls[0])).newStratum
    ensures var ready := Collects(p.answers, 80); |es| > |ready| && es[|es| - |ready|..] == ready && es[|es| - |ready| - 1] == PassStart
  {
    hide Consistent, PacketEvents, Opening, ServedEvents, IdleChips, Run, AllPossible, ArrivalsAre, Collects;
  }

  // Many passes

  /** One after the other. */
  function Flat<T>(runs: seq<seq<T>>): seq<T> {
    if runs == [] then [] else Flat(runs[..|runs| - 1]) + runs[|runs| - 1]
  }

  lemma FlatMore<T>(runs: seq<seq<T>>, es: seq<T>)
    ensures Flat(runs + [es]) == Flat(runs) + es
  {
    assert (runs + [es])[..|runs|] == runs;
  }

  /** From s on, the events and calls of each pass are those its environment calls for; the last pass
      may have come to a stop. */
  ghost predicate ArePasses(s: State, runs: seq<Events>, logs: seq<seq<Call>>, passes: seq<Pass>, out: Outcome)
    requires Consistent(s)
  {
    |runs| == |logs| <= |passes| && forall i :: 0 <= i < |runs| ==> PassAt(s, runs, logs, passes, i, out)
  }

  ghost predicate PassAt(s: State, runs: seq<Events>, logs: seq<seq<Call>>, passes: seq<Pass>, i: nat, out: Outcome)
    requires Consistent(s) && i < |runs| == |logs| <= |passes|
  {
    && AllPossible(Flat(runs[..i])) && Fits(passes[i])
    && PassFrom(s, Flat(runs[..i]), passes[i], runs[i], logs[i], if i < |runs| - 1 then Returned(0) else out)
  }

  ghost predicate PassFrom(s: State, before: Events, p: Pass, es: Events, calls: seq<Call>, out: Outcome)
    requires Consistent(s) && AllPossible(before) && Fits(p)
  {
    IsPass(Run(s, before), p, es, calls, out)
  }

  /** For a pass it does not matter with which value its calls returned. */
  lemma ReturnedPass(t: State, p: Pass, es: Events, calls: seq<Call>, out: Outcome)
    requires Consistent(t) && Fits(p) && IsPass(t, p, es, calls, out) && out.Returned?
    ensures IsPass(t, p, es, calls, Returned(0))
  {
    hide Opening, PacketEvents, ArrivalsAre, ServedEvents, PassEvents, IdleChips, Consistent;
  }

  lemma OneMorePass(s: State, runs: seq<Events>, logs: seq<seq<Call>>, passes: seq<Pass>, es: Events, calls: seq<Call>, t: State, out: Outcome)
    requires Consistent(s) && ArePasses(s, runs, logs, passes, Returned(0)) && |runs| < |passes| && Fits(passes[|runs|])
    requires AllPossible(Flat(runs)) && t == Run(s, Flat(runs)) && IsPass(t, passes[|runs|], es, calls, out)
    ensures ArePasses(s, runs + [es], logs + [calls], passes, out)
  {
    hide IsPass, Consistent, Fits, Run, AllPossible, Flat;
    var next, nextLogs := runs + [es], logs + [calls];
    assert next[..|runs|] == runs;
    forall i | 0 <= i < |next| ensures PassAt(s, next, nextLogs, passes, i, out) {
      assert next[..i] == runs[..i];
      if i < |runs| {
        assert PassAt(s, runs, logs, passes, i, Returned(0));
      }
    }
  }

  lemma ReturnedLast(s: State, runs: seq<Events>, logs: seq<seq<Call>>, passes: seq<Pass>, out: Outcome)
    requires Consistent(s) && ArePasses(s, runs, logs, passes, out) && out.Returned?
    ensures ArePasses(s, runs, logs, passes, Returned(0))
  {
    hide IsPass, Consistent, Fits, AllPossible, Flat;
    forall i | 0 <= i < |runs| ensures PassAt(s, runs, logs, passes, i, Returned(0)) {
      assert PassAt(s, runs, logs, passes, i, out);
      ReturnedPass(Run(s, Flat(runs[..i])), passes[i], runs[i], logs[i], if i < |runs| - 1 then Returned(0) else out);
    }
  }

  /** The program from power-on, for any number of passes: the run it makes and the calls of `get_pkg`,
      pass by pass, and what it puts out: frames to the host and tasks to the chips. */
  method MainLoop(m: Manager, rx: F.Receiver, line: U.Receiver, work: Miner.Work, passes: seq<Pass>)
    returns (out: Outcome, sent: seq<Output>, ghost runs: seq<Events>, ghost logs: seq<seq<Call>>)
    requires m.Valid() && rx.Valid() && line.Valid() && work.Valid()
    requires m.Repr() !! rx.Repr() !! line.Repr() !! work.Repr()
    requires m.Abs() == INITIAL && rx.Stand() == F.Hunting(0) && line.given == []
    requires forall i :: 0 <= i < |passes| ==> Fits(passes[i])
    modifies m.Repr(), rx.Repr(), line.Repr(), work.Repr()
    ensures m.Valid() && rx.Valid() && line.Valid() && work.Valid() && line.Line() == old(line.Line())
    ensures Ran(INITIAL, m.Abs(), Flat(runs), sent)
    ensures AllCarry(RepliesIn(sent), Reports(INITIAL, Flat(runs)))
    ensures Consistent(INITIAL) && ArePasses(INITIAL, runs, logs, passes, out) && (out.Returned? ==> |runs| == |passes|)
    ensures Follows(old(Now(rx, line)), Flat(logs), |line.Line()|, Now(rx, line)) && EndsIn(Flat(logs), out)
    ensures FramesOf(Flat(runs)) == FramesIn(Flat(logs)) && FramesIn(Flat(logs)) + Stopped(out) == F.Scan(line.given)
    ensures line.inOrder ==> line.given <= line.Line()
    ensures |line.Line()| <= U.RX_SIZE ==> line.inOrder
    ensures out.Returned? && |line.Line()| < U.RX_SIZE && FullPasses(passes, |line.Line()|) > Rejected(F.Scan(line.Line())) ==>
      FramesOf(Flat(runs)) == F.Scan(line.Line())
    ensures out.Blocked? && |line.Line()| < U.RX_SIZE ==> line.given == line.Line() && rx.start
    ensures Clean(line.Line()) ==> out.Returned?
  {
    hide Manager.Valid, Manager.Abs, U.Receiver.Valid, F.Receiver.Valid, U.Receiver.Line, Fits, INITIAL, Consistent, LoopSoFar;
    out, sent, runs, logs := Returned(0), [], [], [];
    ghost var mo := Now(rx, line);
    InitialConsistent();
    NothingYet(mo, passes, |line.Line()|);
    for i := 0 to |passes|
      invariant m.Valid() && rx.Valid() && line.Valid() && work.Valid() && line.Line() == old(line.Line())
      invariant |runs| == i && out.Returned?
      invariant LoopSoFar(INITIAL, passes, m.Abs(), runs, logs, sent, mo, Now(rx, line), |line.Line()|, out)
    {
      out, sent, runs, logs := OnePass(m, rx, line, work, passes, i, sent, runs, logs, mo, out);
      if !out.Returned? {
        break;
      }
    }
    line.GivenIsPrefix();
    LoopIs(passes, m.Abs(), runs, logs, sent, mo, Now(rx, line), |line.Line()|, out);
    SentCarries(INITIAL, m.Abs(), Flat(runs), sent);
    LoopScans(mo, Flat(logs), |line.Line()|, Now(rx, line), out);
    LoopHandles(line.Line(), runs, logs, passes, out, mo, Now(rx, line));
    LoopStops(line.Line(), Flat(logs), out, mo, Now(rx, line));
    StandIs(rx);
  }

  lemma LoopStops(content: seq<Byte>, calls: seq<Call>, out: Outcome, mo: Moment, e: Moment)
    requires mo.given == [] && mo.stand == F.Hunting(0) && Follows(mo, calls, |content|, e) && EndsIn(calls, out)
    requires |content| < U.RX_SIZE ==> e.given <= content
    ensures out.Blocked? && |content| < U.RX_SIZE ==> e.given == content && e.stand.Filling?
    ensures Clean(content) ==> out.Returned?
  {
    hide Follows, EndsIn;
    if out.Blocked? && |content| < U.RX_SIZE {
      BlocksWithin(content, mo, calls, e, out);
    }
    if Clean(content) {
      CleanReturns(content, mo, calls, e, out);
    }
  }

  /** The passes that begin when the rest of the line has come in. */
  function FullPasses(passes: seq<Pass>, total: nat): nat {
    if passes == [] then 0
    else
      var n := |passes| - 1;
      FullPasses(passes[..n], total) + (if passes[n].arrivals != [] && passes[n].arrivals[0] >= total then 1 else 0)
  }

  lemma {:induction false} PassesFill(s: State, runs: seq<Events>, logs: seq<seq<Call>>, passes: seq<Pass>, out: Outcome, total: nat, n: nat)
    requires Consistent(s) && ArePasses(s, runs, logs, passes, out) && n <= |runs|
    ensures FullPasses(passes[..n], total) <= Full(Flat(logs[..n]), total)
    decreases n
  {
    hide Consistent, IsRest, EndsIn, Opening, Run, AllPossible, Full;
    if n > 0 {
      PassesFill(s, runs, logs, passes, out, total, n - 1);
      assert PassAt(s, runs, logs, passes, n - 1, out);
      assert passes[..n][..n - 1] == passes[..n - 1] && logs[..n] == logs[..n - 1] + [logs[n - 1]];
      FlatMore(logs[..n - 1], logs[n - 1]);
      FullAppend(Flat(logs[..n - 1]), logs[n - 1], total);
      if logs[n - 1][0].arriving >= total {
        FirstFull(logs[n - 1], total);
      }
    }
  }

  lemma LoopHandles(content: seq<Byte>, runs: seq<Events>, logs: seq<seq<Call>>, passes: seq<Pass>, out: Outcome, mo: Moment, e: Moment)
    requires Consistent(INITIAL) && ArePasses(INITIAL, runs, logs, passes, out) && (out.Returned? ==> |runs| == |passes|)
    requires mo.given == [] && mo.stand == F.Hunting(0) && Follows(mo, Flat(logs), |content|, e) && EndsIn(Flat(logs), out)
    requires |content| < U.RX_SIZE ==> e.given <= content
    ensures out.Returned? && |content| < U.RX_SIZE && FullPasses(passes, |content|) > Rejected(F.Scan(content)) ==>
      FramesIn(Flat(logs)) == F.Scan(content)
  {
    hide Consistent, ArePasses, INITIAL, Follows, Flat, AllReturned, FullPasses, Full, Rejected, F.Scan, FramesIn;
    if out.Returned? && |content| < U.RX_SIZE && FullPasses(passes, |content|) > Rejected(F.Scan(content)) {
      PassesSized(runs, logs, passes, out);
      PassesFill(INITIAL, runs, logs, passes, out, |content|, |runs|);
      assert passes[..|runs|] == passes && logs[..|runs|] == logs;
      EverythingHandled(content, mo, Flat(logs), e);
    }
  }

  lemma PassesSized(runs: seq<Events>, logs: seq<seq<Call>>, passes: seq<Pass>, out: Outcome)
    requires Consistent(INITIAL) && ArePasses(INITIAL, runs, logs, passes, out)
    ensures |runs| == |logs|
  {
    hide Consistent;
  }

  /** The loop from s0 and the moment `mo`, after some passes. */
  ghost predicate LoopSoFar(s0: State, passes: seq<Pass>, t: State, runs: seq<Events>, logs: seq<seq<Call>>, sent: seq<Output>,
                            mo: Moment, e: Moment, total: nat, out: Outcome)
  {
    && Ran(s0, t, Flat(runs), sent) && Consistent(s0) && ArePasses(s0, runs, logs, passes, out)
    && FramesOf(Flat(runs)) == FramesIn(Flat(logs)) && Follows(mo, Flat(logs), total, e) && EndsIn(Flat(logs), out)
  }

  lemma LoopIs(passes: seq<Pass>, t: State, runs: seq<Events>, logs: seq<seq<Call>>, sent: seq<Output>,
               mo: Moment, e: Moment, total: nat, out: Outcome)
    requires LoopSoFar(INITIAL, passes, t, runs, logs, sent, mo, e, total, out)
    ensures Ran(INITIAL, t, Flat(runs), sent) && Consistent(INITIAL) && ArePasses(INITIAL, runs, logs, passes, out)
    ensures FramesOf(Flat(runs)) == FramesIn(Flat(logs)) && Follows(mo, Flat(logs), total, e) && EndsIn(Flat(logs), out)
  {
    hide Ran, INITIAL, Flat, Consistent, ArePasses, FramesOf, FramesIn, Follows, EndsIn;
  }

  /** One more pass. */
  method OnePass(m: Manager, rx: F.Receiver, line: U.Receiver, work: Miner.Work, passes: seq<Pass>, i: nat, sent: seq<Output>,
                 ghost runs: seq<Events>, ghost logs: seq<seq<Call>>, ghost mo: Moment, ghost last: Outcome)
    returns (out: Outcome, all: seq<Output>, ghost more: seq<Events>, ghost logged: seq<seq<Call>>)
    requires m.Valid() && rx.Valid() && line.Valid() && work.Valid()
    requires m.Repr() !! rx.Repr() !! line.Repr() !! work.Repr() && i < |passes| && Fits(passes[i]) && |runs| == i && last.Returned?
    requires LoopSoFar(INITIAL, passes, m.Abs(), runs, logs, sent, mo, Now(rx, line), |line.Line()|, last)
    modifies m.Repr(), rx.Repr(), line.Repr(), work.Repr()
    ensures m.Valid() && rx.Valid() && line.Valid() && work.Valid() && line.Line() == old(line.Line()) && |more| == i + 1
    ensures LoopSoFar(INITIAL, passes, m.Abs(), more, logged, all, mo, Now(rx, line), |line.Line()|, out)
  {
    hide Manager.Valid, Manager.Abs, U.Receiver.Valid, F.Receiver.Valid, U.Receiver.Line, Now, Fits, INITIAL, Consistent, Ran, Follows, IsPass,
      LoopSoFar;
    ghost var s, now := m.Abs(), Now(rx, line);
    var these;
    ghost var es, calls;
    out, these, es, calls := MainPass(m, rx, line, work, passes[i]);
    LoopMore(passes, s, m.Abs(), runs, es, logs, calls, sent, these, mo, now, Now(rx, line), |line.Line()|, last, out);
    all, more, logged := sent + these, runs + [es], logs + [calls];
  }

  lemma LoopMore(passes: seq<Pass>, s: State, t: State, runs: seq<Events>, es: Events, logs: seq<seq<Call>>, calls: seq<Call>,
                 sent: seq<Output>, these: seq<Output>, mo: Moment, now: Moment, e: Moment, total: nat, last: Outcome, out: Outcome)
    requires LoopSoFar(INITIAL, passes, s, runs, logs, sent, mo, now, total, last) && last.Returned?
    requires |runs| < |passes| && Fits(passes[|runs|]) && Consistent(s) && IsPass(s, passes[|runs|], es, calls, out)
    requires Ran(s, t, es, these) && Follows(now, calls, total, e)
    ensures LoopSoFar(INITIAL, passes, t, runs + [es], logs + [calls], sent + these, mo, e, total, out)
  {
    hide Ran, INITIAL, Flat, Consistent, ArePasses, FramesOf, FramesIn, Follows, IsPass, Fits, AllReturned;
    RanIs(INITIAL, s, Flat(runs), sent);
    ReturnedLast(INITIAL, runs, logs, passes, last);
    OneMorePass(INITIAL, runs, logs, passes, es, calls, s, out);
    Extended(s, t, runs, es, sent, these, passes[|runs|], out, mo, now, e, logs, calls, total);
  }

  lemma NothingYet(mo: Moment, passes: seq<Pass>, total: nat)
    requires F.Proper(mo.stand) && Consistent(INITIAL)
    ensures LoopSoFar(INITIAL, passes, INITIAL, [], [], [], mo, mo, total, Returned(0))
  {
    hide Consistent;
    RanNothing(INITIAL);
    FollowsNothing(mo, total);
  }

  /** The packets of a pass are those of its calls. */
  lemma PassFrames(t: State, p: Pass, es: Events, calls: seq<Call>, out: Outcome)
    requires Consistent(t) && Fits(p) && IsPass(t, p, es, calls, out)
    ensures FramesOf(es) == FramesIn(calls)
  {
    hide FramesOf, FramesIn, Consistent, PacketEvents, TimerEvents, IsRest, EndsIn;
    FramesOfPackets(calls[0].frames);
    FramesOne(calls[0]);
    TimerFrames(PacketEvents(calls[0].frames), p);
    assert calls == [calls[0]] + calls[1..] && (|calls| == 1 ==> calls == [calls[0]]);
    if calls[0].out.Returned? && Run(t, Opening(p, calls[0])).newStratum {
      FramesAppend([calls[0]], calls[1..]);
      RestFrames(p, Opening(p, calls[0]), es, calls[1..], out);
    }
  }

  lemma RestFrames(p: Pass, before: Events, es: Events, calls: seq<Call>, out: Outcome)
    requires Fits(p) && IsRest(p, before, es, calls, out)
    ensures FramesOf(es) == FramesOf(before) + FramesIn(calls)
  {
    hide FramesOf, ChipsOf, FramesIn, ServedEvents, PassEvents, ArrivalsAre, IdleChips;
    var chips := IdleChips(p.idle, CHIP_NUMBER);
    assert chips[..|chips|] == chips;
    var served := ServedEvents(chips[..|calls|], calls);
    FramesOfServed(chips[..|calls|], calls);
    OfAppend(before, served);
    NoFrames(p.answers, CHIP_NUMBER);
    OfAppend(before + served, PassEvents(p.answers, CHIP_NUMBER));
    assert FramesOf(before + served) + [] == FramesOf(before + served);
  }

  lemma Extended(s: State, t: State, runs: seq<Events>, more: Events, sent: seq<Output>, these: seq<Output>, p: Pass, out: Outcome,
                 mo: Moment, now: Moment, e: Moment, logs: seq<seq<Call>>, calls: seq<Call>, total: nat)
    requires Ran(INITIAL, s, Flat(runs), sent) && Ran(s, t, more, these) && FramesOf(Flat(runs)) == FramesIn(Flat(logs))
    requires Consistent(s) && Fits(p) && IsPass(s, p, more, calls, out)
    requires Follows(mo, Flat(logs), total, now) && Follows(now, calls, total, e) && AllReturned(Flat(logs))
    ensures Ran(INITIAL, t, Flat(runs + [more]), sent + these) && FramesOf(Flat(runs + [more])) == FramesIn(Flat(logs + [calls]))
    ensures Follows(mo, Flat(logs + [calls]), total, e) && EndsIn(Flat(logs + [calls]), out)
  {
    hide Ran, FramesOf, FramesIn, ChipsOf, INITIAL, Flat, Follows, Consistent, Fits, Opening, IsRest, EndsIn, AllReturned;
    FlatMore(runs, more);
    FlatMore(logs, calls);
    RanAppend(INITIAL, s, t, Flat(runs), more, sent, these);
    FollowsAppend(mo, Flat(logs), now, calls, e, total);
    EndsAppend(Flat(logs), calls, out);
    PassFrames(s, p, more, calls, out);
    OfAppend(Flat(runs), more);
    FramesAppend(Flat(logs), calls);
  }

  lemma LoopScans(mo: Moment, calls: seq<Call>, total: nat, e: Moment, out: Outcome)
    requires Follows(mo, calls, total, e) && EndsIn(calls, out) && mo.stand == F.Hunting(0) && mo.given == []
    ensures FramesIn(calls) + Stopped(out) == F.Scan(e.given)
  {
    hide Follows, EndsIn, FramesIn, BytesIn;
    assert F.Proper(mo.stand);
    CallsReceive(mo, calls, total, e, out);
    F.ReceivedFromPowerOn(BytesIn(calls));
    assert [] + BytesIn(calls) == BytesIn(calls);
  }

  // What the chips are handed

  /** Everything put out in a run from power-on was called for by one event, at a time t. */
  lemma {:induction false} WantedCause(es: Events, k: nat) returns (t: nat)
    requires Consistent(INITIAL) && AllPossible(es) && k < |AllWanted(INITIAL, es)|
    ensures t < |es| && AllPossible(es[..t]) && Possible(es[t])
    ensures WantedBy(P.TraceOf(es[..t]).st, es[t]) == [AllWanted(INITIAL, es)[k]] && |AllWanted(INITIAL, es[..t])| == k
    decreases |es|
  {
    hide ManagerSpec.Step, Consistent, Possible, WantedBy, P.TraceOf, Run;
    var n := |es| - 1;
    assert es == es[..n] + [es[n]];
    WantedAppend(INITIAL, es[..n], [es[n]]);
    OneEvent(Run(INITIAL, es[..n]), es[n]);
    if k < |AllWanted(INITIAL, es[..n])| {
      t := WantedCause(es[..n], k);
      assert es[..n][..t] == es[..t];
    } else {
      t := n;
      P.TraceIsRun(es[..n]);
      OneWanted(P.TraceOf(es[..n]).st, es[n]);
    }
  }

  lemma OneWanted(s: State, e: Event)
    requires Consistent(s) && Possible(e)
    ensures |WantedBy(s, e)| <= 1
  {
    hide Consistent, TaskSent;
    AtMostOne(s, e);
  }

  /** Each task handed to a chip in a run from power-on is that of the job and the nonce2 the chip was
      dispatched with. */
  lemma HandedExact(es: Events, k: nat) returns (t: nat)
    requires Consistent(INITIAL) && AllPossible(es) && k < |AllWanted(INITIAL, es)| && AllWanted(INITIAL, es)[k].Hand?
    ensures t < |es| && es[t] == Dispatch(AllWanted(INITIAL, es)[k].chip)
    ensures AllWanted(INITIAL, es)[k].task == Task(HeaderWith(P.JobAt(es, t), P.Nonce2At(es, t)))
  {
    hide AllWanted, P.TraceOf, HeaderWith, Task, Replies, Consistent, Possible, Sized, InRange;
    t := WantedCause(es, k);
    var s := P.TraceOf(es[..t]).st;
    HandIsDispatch(s, es[t], AllWanted(INITIAL, es)[k]);
    TaskOfJob(s);
  }

  lemma HandIsDispatch(s: State, e: Event, w: Wanted)
    requires Consistent(s) && Possible(e) && WantedBy(s, e) == [w] && w.Hand?
    ensures e == Dispatch(w.chip) && w.task == TaskSent(s)
  {
    hide Consistent, TaskSent, Replies;
    var made := WantedBy(s, e)[0];
    assert made == w && (e.Packet? ==> made.Answer?);
  }

  lemma TaskOfJob(s: State)
    requires Consistent(s)
    ensures s.cur < |s.slots| && Sized(s.slots[s.cur]) && InRange(s.slots[s.cur])
    ensures TaskSent(s) == Task(HeaderWith(s.slots[s.cur], NextNonce2Of(s)))
  {
    hide HeaderWith, Task;
    JobSafety.EssenceIgnoresCounter(s.slots[s.cur], NextNonce2Of(s));
  }

  // What the host is told

  /** The k-th report of a run from power-on answers a packet, at a time t with k reports before it. */
  lemma {:induction false} AnswersPacket(es: Events, k: nat) returns (t: nat)
    requires Consistent(INITIAL) && AllPossible(es) && k < |Reports(INITIAL, es)|
    ensures t < |es| && AllPossible(es[..t])
    ensures RepliesTo(P.TraceOf(es[..t]).st, es[t]) == [Reports(INITIAL, es)[k]] && |Reports(INITIAL, es[..t])| == k
    decreases |es|
  {
    hide ManagerSpec.Step, Consistent, Possible, RepliesTo, P.TraceOf, Run, WantedBy, AllWanted;
    var n := |es| - 1;
    assert es == es[..n] + [es[n]];
    ReportsAppend(INITIAL, es[..n], [es[n]]);
    OneEvent(Run(INITIAL, es[..n]), es[n]);
    if k < |Reports(INITIAL, es[..n])| {
      t := AnswersPacket(es[..n], k);
      assert es[..n][..t] == es[..t];
    } else {
      t := n;
      P.TraceIsRun(es[..n]);
      AtMostOne(P.TraceOf(es[..n]).st, es[n]);
    }
  }

  lemma AtMostOne(s: State, e: Event)
    requires Consistent(s)
    ensures |RepliesTo(s, e)| <= 1
    ensures RepliesTo(s, e) != [] && RepliesTo(s, e)[0].NonceFound? ==> IsPoll(e) && RepliesTo(s, e) == [PollReport(s)]
  {
    hide Consistent, Accepted;
  }

  /** Every nonce sent in a run from power-on is the answer to a poll. It was found in that run; if its
      chip had been given work, the report is exactly `Told` about that work, and the nonce finishes the
      chip's task to a hash below the target of its job, unless the job was spoiled before it was found. */
  lemma SentExact(es: Events, k: nat) returns (t: nat, r: Result, o: P.Origin)
    requires Consistent(INITIAL) && AllPossible(es) && k < |Reports(INITIAL, es)|
    ensures t < |es| && AllPossible(es[..t])
    ensures Reports(INITIAL, es)[k].NonceFound? ==>
      IsPoll(es[t]) && P.Polled(es[..t], r, o) && NonceIs(es[..t], r, o, Reports(INITIAL, es)[k])
  {
    hide ManagerSpec.Step, Possible, P.TraceOf, P.Good, JobSafety.Spoiled, P.Since, Sized, InRange, NonceIs, P.ResultKnown, RepliesTo, PollReport;
    t := AnswersPacket(es, k);
    var now := es[..t];
    var tr := P.TraceOf(now);
    r := tr.st.ring[tr.st.consume];
    AtMostOne(tr.st, es[t]);
    if Reports(INITIAL, es)[k].NonceFound? {
      PollTells(tr.st);
      RR.PolledHasOrigin(now);
      o := tr.ring[tr.st.consume].value;
      ExactNonce(now, r, o);
    } else {
      o := P.Origin(None, 0);
    }
  }

  lemma PollTells(s: State)
    requires Consistent(s)
    ensures PollReport(s).NonceFound? <==> s.consume != s.produce
  {
  }

  ghost predicate NonceIs(es: Events, r: Result, o: P.Origin, report: Report)
    requires AllPossible(es)
  {
    o.found < |es|
    && match o.dispatched
       case Some(b) =>
         && b < o.found && es[b] == Dispatch(r.idx) && report == P.Told(es, b, r)
         && (JobSafety.Spoiled(P.Since(es[..o.found], b), 0) || P.Good(P.JobAt(es, b), r.nonce2, r.nonce))
       case None => report == P.ToldUngiven(es, r)
  }

  lemma ExactNonce(es: Events, r: Result, o: P.Origin)
    requires AllPossible(es) && P.Polled(es, r, o)
    ensures NonceIs(es, r, o, PollReport(P.TraceOf(es).st))
  {
    hide P.TraceOf, P.Good, JobSafety.Spoiled, Sized, InRange, P.Told, P.ToldUngiven, PollReport, P.Since, Possible;
    P.ReportExact(es, r, o);
    P.AllKnown(es);
    assert P.ResultKnown(es, r, o);
    if o.dispatched.Some? && !JobSafety.Spoiled(P.Since(es[..o.found], o.dispatched.value), 0) {
      P.ResultGood(es, r, o);
    }
  }
}
