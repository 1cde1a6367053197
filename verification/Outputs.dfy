/** Everything the device puts out in a run: which event each output belongs to, and what it is. */
module Outputs {
  import opened Words
  import opened Options
  import opened WorkSpec
  import opened Packets
  import opened ManagerSpec
  import opened ReportWire
  import opened Transcript
  import opened Protocol
  import A = Accounting
  import P = Provenance
  import Firmware

  /** A dispatch hands over a task; accepted packets of types 10, 16 and 18 are answered. */
  predicate Speaks(e: Event) { e.Dispatch? || A.IsType(e, 10) || A.IsType(e, 16) || A.IsType(e, 18) }

  function Speaking(es: Events): nat {
    if es == [] then 0 else Speaking(es[..|es| - 1]) + if Speaks(es[|es| - 1]) then 1 else 0
  }

  lemma OneEach(s: State, e: Event)
    requires Consistent(s) && Possible(e)
    ensures |WantedBy(s, e)| == if Speaks(e) then 1 else 0
  {
    hide Consistent, Accepted, TaskSent, Replies;
    if e.Packet? {
      if Accepted(e.p) {
        RepliesByType(s, e.p);
      } else {
        RejectedIgnored(s, e.p);
      }
    }
  }

  lemma {:induction false} WantedCount(s: State, es: Events)
    requires Consistent(s) && AllPossible(es)
    ensures |AllWanted(s, es)| == Speaking(es)
    decreases |es|
  {
    hide Step, Consistent, Possible, WantedBy, Speaks, Run, AllWanted;
    if es == [] {
      NoneWanted(s);
    } else {
      var n := |es| - 1;
      assert es == es[..n] + [es[n]];
      WantedCount(s, es[..n]);
      WantedAppend(s, es[..n], [es[n]]);
      OneEvent(Run(s, es[..n]), es[n]);
      OneEach(Run(s, es[..n]), es[n]);
    }
  }

  lemma NoneWanted(s: State)
    requires Consistent(s)
    ensures AllWanted(s, []) == []
  {
  }

  /** One output for each dispatch and each answered packet, none for anything else. */
  lemma OutputCount(s: State, u: State, es: Events, outs: seq<Output>)
    requires Ran(s, u, es, outs)
    ensures |outs| == Speaking(es)
  {
    hide Consistent, AllWanted, Meets;
    WantedCount(s, es);
  }

  /** The k-th output of a run from power-on belongs to the event at the time t before which k events had
      one. A dispatch hands that chip the task of the current job with its next nonce2; a packet is
      answered by one frame, which carries its reply. */
  lemma OutputExact(es: Events, u: State, outs: seq<Output>, k: nat) returns (t: nat)
    requires Ran(INITIAL, u, es, outs) && k < |outs|
    ensures AllPossible(es) && t < |es| && Speaks(es[t]) && Speaking(es[..t]) == k
    ensures es[t].Dispatch? ==>
      outs[k] == Handed(es[t].chip, Task(HeaderWith(P.JobAt(es, t), P.Nonce2At(es, t))))
    ensures es[t].Packet? ==> outs[k].Reply? && |Replies(P.Before(es, t), es[t].p)| == 1
    ensures es[t].Packet? ==> Carries(outs[k].p, Replies(P.Before(es, t), es[t].p)[0])
  {
    hide Consistent, Possible, AllWanted, Carries, Replies, P.TraceOf, HeaderWith, Task, Sized, InRange, Speaks, WantedBy, TaskSent;
    var w := AllWanted(INITIAL, es)[k];
    t := Firmware.WantedCause(es, k);
    var s := P.TraceOf(es[..t]).st;
    OneEach(s, es[t]);
    WantedCount(INITIAL, es[..t]);
    assert Meets(outs[k], w);
    Caused(s, es[t], w);
    if es[t].Dispatch? {
      Firmware.TaskOfJob(s);
    }
  }

  lemma Caused(s: State, e: Event, w: Wanted)
    requires Consistent(s) && Possible(e) && WantedBy(s, e) == [w]
    ensures e.Dispatch? ==> w == Hand(e.chip, TaskSent(s))
    ensures e.Packet? ==> |Replies(s, e.p)| == 1 && w == Answer(Replies(s, e.p)[0])
  {
    hide Consistent, Replies, TaskSent;
    assert w == WantedBy(s, e)[0];
  }
}
