/** What a run leaves behind: the frames it took in, the chips it served, what it put out. */
module Transcript {
  import opened Words
  import opened Options
  import opened Packets
  import opened ManagerSpec
  import opened ReportWire
  import F = Framing

  // Runs and what they send back

  predicate IsPoll(e: Event) { e.Packet? && Accepted(e.p) && Kind(e.p) == P_POLLING }

  function RepliesTo(s: State, e: Event): seq<Report>
    requires Consistent(s)
  {
    if e.Packet? then Replies(s, e.p) else []
  }

  /** What the packets of a run are answered with, in order. */
  function Reports(s: State, es: Events): seq<Report>
    requires Consistent(s) && AllPossible(es)
    decreases |es|
  {
    if es == [] then []
    else
      StepValid(s, es[0]);
      RepliesTo(s, es[0]) + Reports(ManagerSpec.Step(s, es[0]), es[1..])
  }

  // What leaves the device: frames to the host, tasks to the chips

  datatype Output = Reply(p: Frame) | Handed(chip: nat, task: seq<Byte>)

  /** What should leave it. */
  datatype Wanted = Answer(r: Report) | Hand(chip: nat, task: seq<Byte>)

  function AsReplies(ps: seq<Frame>): (outs: seq<Output>)
    ensures |outs| == |ps|
  {
    seq(|ps|, i requires 0 <= i < |ps| => Reply(ps[i]))
  }

  function AsAnswers(rs: seq<Report>): (ws: seq<Wanted>)
    ensures |ws| == |rs|
  {
    seq(|rs|, i requires 0 <= i < |rs| => Answer(rs[i]))
  }

  /** A packet calls for its replies, a dispatch for the task of the current job's next nonce2. */
  function WantedBy(s: State, e: Event): seq<Wanted>
    requires Consistent(s) && Possible(e)
  {
    match e
    case Packet(p) => AsAnswers(Replies(s, p))
    case Dispatch(chip) => [Hand(chip, TaskSent(s))]
    case _ => []
  }

  /** Everything a run calls for, in order. */
  function AllWanted(s: State, es: Events): seq<Wanted>
    requires Consistent(s) && AllPossible(es)
    decreases |es|
  {
    if es == [] then []
    else
      StepValid(s, es[0]);
      WantedBy(s, es[0]) + AllWanted(ManagerSpec.Step(s, es[0]), es[1..])
  }

  ghost predicate Meets(o: Output, w: Wanted) {
    match o
    case Reply(p) => w.Answer? && Carries(p, w.r)
    case Handed(chip, task) => w == Hand(chip, task)
  }

  ghost predicate AllMeet(outs: seq<Output>, ws: seq<Wanted>) {
    |outs| == |ws| && forall i :: 0 <= i < |outs| ==> Meets(outs[i], ws[i])
  }

  lemma RepliesMeet(ps: seq<Frame>, rs: seq<Report>)
    requires AllCarry(ps, rs)
    ensures AllMeet(AsReplies(ps), AsAnswers(rs))
  {
    hide Carries;
  }

  /** The events take s to t, and what was put out is what they call for. */
  ghost predicate Ran(s: State, t: State, es: Events, outs: seq<Output>) {
    Consistent(s) && AllPossible(es) && t == Run(s, es) && AllMeet(outs, AllWanted(s, es))
  }

  lemma RanNothing(s: State)
    requires Consistent(s)
    ensures Ran(s, s, [], [])
  {
  }

  lemma OneEvent(s: State, e: Event)
    requires Consistent(s) && Possible(e)
    ensures AllPossible([e]) && Run(s, [e]) == ManagerSpec.Step(s, e) && Reports(s, [e]) == RepliesTo(s, e)
    ensures AllWanted(s, [e]) == WantedBy(s, e)
  {
    hide ManagerSpec.Step, Consistent, Possible, RepliesTo, WantedBy;
    StepValid(s, e);
    assert [e][1..] == [];
    assert Run(s, [e]) == Run(ManagerSpec.Step(s, e), []);
    assert Reports(ManagerSpec.Step(s, e), []) == [] && AllWanted(ManagerSpec.Step(s, e), []) == [];
    assert RepliesTo(s, e) + [] == RepliesTo(s, e) && WantedBy(s, e) + [] == WantedBy(s, e);
  }

  lemma RanOne(s: State, e: Event, outs: seq<Output>)
    requires Consistent(s) && Possible(e) && AllMeet(outs, WantedBy(s, e))
    ensures Ran(s, ManagerSpec.Step(s, e), [e], outs)
  {
    hide ManagerSpec.Step, Consistent, Possible, RepliesTo, Run, Reports, AllMeet, AllPossible, AllWanted, WantedBy;
    OneEvent(s, e);
  }

  lemma MeetAppend(a: seq<Output>, b: seq<Output>, x: seq<Wanted>, y: seq<Wanted>)
    requires AllMeet(a, x) && AllMeet(b, y)
    ensures AllMeet(a + b, x + y)
  {
    hide Meets;
  }

  lemma RanAppend(s: State, t: State, u: State, a: Events, b: Events, pa: seq<Output>, pb: seq<Output>)
    requires Ran(s, t, a, pa) && Ran(t, u, b, pb)
    ensures Ran(s, u, a + b, pa + pb)
  {
    hide ManagerSpec.Step, Consistent, Possible, AllWanted, AllMeet;
    RunAppend(s, a, b);
    WantedAppend(s, a, b);
    MeetAppend(pa, pb, AllWanted(s, a), AllWanted(t, b));
  }

  lemma {:induction false} WantedAppend(s: State, a: Events, b: Events)
    requires Consistent(s) && AllPossible(a) && AllPossible(b)
    ensures AllPossible(a + b) && AllWanted(s, a + b) == AllWanted(s, a) + AllWanted(Run(s, a), b)
    decreases |a|
  {
    hide ManagerSpec.Step, Consistent, Possible, WantedBy;
    if a == [] {
      assert a + b == b;
      assert [] + AllWanted(s, b) == AllWanted(s, b);
    } else {
      StepValid(s, a[0]);
      WantedAppend(ManagerSpec.Step(s, a[0]), a[1..], b);
      assert (a + b)[1..] == a[1..] + b;
    }
  }

  // The frames among it carry the reports

  function RepliesIn(outs: seq<Output>): seq<Frame>
    decreases |outs|
  {
    if outs == [] then [] else (if outs[0].Reply? then [outs[0].p] else []) + RepliesIn(outs[1..])
  }

  function AnswersIn(ws: seq<Wanted>): seq<Report>
    decreases |ws|
  {
    if ws == [] then [] else (if ws[0].Answer? then [ws[0].r] else []) + AnswersIn(ws[1..])
  }

  lemma AnswersFirst(a: seq<Wanted>, b: seq<Wanted>)
    requires a != []
    ensures AnswersIn(a) == AnswersIn([a[0]]) + AnswersIn(a[1..])
    ensures AnswersIn(a + b) == AnswersIn([a[0]]) + AnswersIn(a[1..] + b)
  {
    assert (a + b)[1..] == a[1..] + b && [a[0]][1..] == [];
    var first := if a[0].Answer? then [a[0].r] else [];
    assert first + [] == first;
  }

  lemma {:induction false} AnswersAppend(a: seq<Wanted>, b: seq<Wanted>)
    ensures AnswersIn(a + b) == AnswersIn(a) + AnswersIn(b)
    decreases |a|
  {
    if a == [] {
      assert a + b == b;
    } else {
      hide *;
      AnswersFirst(a, b);
      AnswersAppend(a[1..], b);
      var x, y, z := AnswersIn([a[0]]), AnswersIn(a[1..]), AnswersIn(b);
      assert x + y + z == x + (y + z);
    }
  }

  lemma {:induction false} AnswersBack(rs: seq<Report>)
    ensures AnswersIn(AsAnswers(rs)) == rs
    decreases |rs|
  {
    if rs != [] {
      AnswersBack(rs[1..]);
      assert AsAnswers(rs)[1..] == AsAnswers(rs[1..]);
    }
  }

  lemma {:induction false} AnswersAreReports(s: State, es: Events)
    requires Consistent(s) && AllPossible(es)
    ensures AnswersIn(AllWanted(s, es)) == Reports(s, es)
    decreases |es|
  {
    hide ManagerSpec.Step, Consistent, Possible, Replies, TaskSent;
    if es != [] {
      StepValid(s, es[0]);
      AnswersAreReports(ManagerSpec.Step(s, es[0]), es[1..]);
      AnswersAppend(WantedBy(s, es[0]), AllWanted(ManagerSpec.Step(s, es[0]), es[1..]));
      if es[0].Packet? {
        AnswersBack(Replies(s, es[0].p));
      } else {
        NoAnswers(s, es[0]);
      }
    }
  }

  lemma NoAnswers(s: State, e: Event)
    requires Consistent(s) && Possible(e) && !e.Packet?
    ensures AnswersIn(WantedBy(s, e)) == []
  {
    hide Consistent, TaskSent;
    var ws := WantedBy(s, e);
    assert ws != [] ==> ws[1..] == [];
  }

  lemma {:induction false} MeetingCarries(outs: seq<Output>, ws: seq<Wanted>)
    requires AllMeet(outs, ws)
    ensures AllCarry(RepliesIn(outs), AnswersIn(ws))
    decreases |outs|
  {
    hide Carries;
    if outs != [] {
      assert Meets(outs[0], ws[0]);
      MeetingCarries(outs[1..], ws[1..]);
    }
  }

  /** The frames sent in a run carry its reports, one for one. */
  lemma SentCarries(s: State, t: State, es: Events, outs: seq<Output>)
    requires Ran(s, t, es, outs)
    ensures AllCarry(RepliesIn(outs), Reports(s, es))
  {
    hide AllCarry, AllMeet, AllWanted, Reports;
    MeetingCarries(outs, AllWanted(s, es));
    AnswersAreReports(s, es);
  }

  lemma {:induction false} ReportsAppend(s: State, a: Events, b: Events)
    requires Consistent(s) && AllPossible(a) && AllPossible(b)
    ensures AllPossible(a + b) && Reports(s, a + b) == Reports(s, a) + Reports(Run(s, a), b)
    decreases |a|
  {
    hide ManagerSpec.Step, Consistent, Possible, RepliesTo;
    if a == [] {
      assert a + b == b;
      assert [] + Reports(s, b) == Reports(s, b);
    } else {
      StepValid(s, a[0]);
      ReportsAppend(ManagerSpec.Step(s, a[0]), a[1..], b);
      assert (a + b)[1..] == a[1..] + b;
    }
  }

  lemma RanMore(s: State, t: State, es: Events, outs: seq<Output>, e: Event, more: seq<Output>)
    requires Ran(s, t, es, outs) && Consistent(t) && Possible(e) && AllMeet(more, WantedBy(t, e))
    ensures Ran(s, ManagerSpec.Step(t, e), es + [e], outs + more)
  {
    hide ManagerSpec.Step, Consistent, Possible, WantedBy, Ran, AllMeet;
    RanOne(t, e, more);
    RanAppend(s, t, ManagerSpec.Step(t, e), es, [e], outs, more);
  }

  /** Other events than packets and dispatches put nothing out. */
  lemma RanSilent(s: State, t: State, es: Events, outs: seq<Output>, e: Event)
    requires Ran(s, t, es, outs) && Consistent(t) && Possible(e) && !e.Packet? && !e.Dispatch?
    ensures Ran(s, ManagerSpec.Step(t, e), es + [e], outs)
  {
    hide ManagerSpec.Step, Consistent, Possible, Ran;
    RanMore(s, t, es, outs, e, []);
    assert outs + [] == outs;
  }

  /** The frames of a run's packet events, in order. */
  function FramesOf(es: Events): seq<Frame> {
    if es == [] then []
    else FramesOf(es[..|es| - 1]) + (match es[|es| - 1] case Packet(p) => [p] case _ => [])
  }

  /** The chips of a run's dispatch events, in order. */
  function ChipsOf(es: Events): seq<nat> {
    if es == [] then []
    else ChipsOf(es[..|es| - 1]) + (match es[|es| - 1] case Dispatch(chip) => [chip] case _ => [])
  }

  lemma OfMore(es: Events, e: Event)
    ensures FramesOf(es + [e]) == FramesOf(es) + (match e case Packet(p) => [p] case _ => [])
    ensures ChipsOf(es + [e]) == ChipsOf(es) + (match e case Dispatch(chip) => [chip] case _ => [])
  {
    assert (es + [e])[..|es|] == es;
  }

  lemma {:induction false} OfAppend(a: Events, b: Events)
    ensures FramesOf(a + b) == FramesOf(a) + FramesOf(b)
    ensures ChipsOf(a + b) == ChipsOf(a) + ChipsOf(b)
    decreases |b|
  {
    if b == [] {
      assert a + b == a;
    } else {
      var c, e := b[..|b| - 1], b[|b| - 1];
      hide *;
      OfAppend(a, c);
      OfMore(a + c, e);
      OfMore(c, e);
      assert b == c + [e] && a + b == (a + c) + [e];
    }
  }

  // The receiver's side

  /** A receiver standing at m that takes the bytes completes the frames and stands at e. */
  ghost predicate Heard(m: F.Stand, e: F.Stand, bytes: seq<Byte>, frames: seq<Frame>) {
    F.Proper(m) && e == F.Standing(m, bytes) && frames == F.Received(m, bytes)
  }

  lemma HeardNothing(m: F.Stand)
    requires F.Proper(m)
    ensures Heard(m, m, [], [])
  {
  }

  lemma HeardAppend(m: F.Stand, e: F.Stand, f: F.Stand, a: seq<Byte>, b: seq<Byte>, fa: seq<Frame>, fb: seq<Frame>)
    requires Heard(m, e, a, fa) && Heard(e, f, b, fb)
    ensures Heard(m, f, a + b, fa + fb)
  {
    F.ReceivedAppend(m, a, b);
  }

  lemma HeardOne(m: F.Stand, c: Byte)
    requires F.Proper(m)
    ensures Heard(m, F.After(m, c), [c], Listed(F.Completed(m, c)))
  {
    assert [c][1..] == [];
    assert F.Received(F.After(m, c), []) == [];
  }
}
