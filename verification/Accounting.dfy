/** Counters and dispatched nonce2 values over whole runs. */
module Accounting {
  import opened Words
  import opened WorkSpec
  import opened Packets
  import opened Options
  import opened ManagerSpec
  import opened JobSafety
  import opened Provenance
  import opened Transcript
  import Upload

  // Dispatched nonce2 values

  /** The nonce2 values dispatched by a run, in order. */
  function Dispatched(s: State, es: Events): seq<U32>
    requires Consistent(s) && AllPossible(es)
    decreases |es|
  {
    if es == [] then []
    else
      StepValid(s, es[0]);
      (if es[0].Dispatch? then [Step(s, es[0]).chips[es[0].chip].nonce2] else []) + Dispatched(Step(s, es[0]), es[1..])
  }

  lemma CounterAfterStep(s: State, e: Event)
    requires Consistent(s) && Possible(e) && !IsSet(e)
    ensures Consistent(Step(s, e)) && Step(s, e).cur == s.cur
    ensures Step(s, e).slots[s.cur].nonce2 ==
      if e.Dispatch? then (s.slots[s.cur].nonce2 + 1) % 0x1_0000_0000 else s.slots[s.cur].nonce2
    ensures e.Dispatch? ==> Step(s, e).chips[e.chip].nonce2 == Step(s, e).slots[s.cur].nonce2
  {
    hide CoinbaseWith, HeaderWith, WithPacket, FirstSuccess, Accepted, Sized, InRange, PacketInRange;
    StepValid(s, e);
  }

  /** Between two SETs the dispatched values count up from the slot's counter, whatever packets,
      results and polls come in between. */
  lemma {:induction false} ConsecutiveNonces(s: State, es: Events, i: nat)
    requires Consistent(s) && AllPossible(es) && Sets(es) == 0 && i < |Dispatched(s, es)|
    ensures Dispatched(s, es)[i] == (s.slots[s.cur].nonce2 + 1 + i) % 0x1_0000_0000
    decreases |es|
  {
    hide Step, Possible, IsSet, ChipsValid, RingValid, Sized, InRange;
    var e, rest := es[0], es[1..];
    CounterAfterStep(s, e);
    var next := Step(s, e);
    if e.Dispatch? {
      if i > 0 {
        ConsecutiveNonces(next, rest, i - 1);
        WrapStep(s.slots[s.cur].nonce2, i);
      }
    } else {
      ConsecutiveNonces(next, rest, i);
    }
  }

  lemma WrapStep(n: U32, i: nat)
    ensures ((n + 1) % 0x1_0000_0000 + 1 + (i - 1)) % 0x1_0000_0000 == (n + 1 + i) % 0x1_0000_0000
  {
  }

  /** The first 2^32 dispatches after a SET never repeat a nonce2. */
  lemma NoncesNeverRepeat(s: State, es: Events, i: nat, j: nat)
    requires Consistent(s) && AllPossible(es) && Sets(es) == 0
    requires i < j < |Dispatched(s, es)| && j - i < 0x1_0000_0000
    ensures Dispatched(s, es)[i] != Dispatched(s, es)[j]
  {
    hide Dispatched;
    ConsecutiveNonces(s, es, i);
    ConsecutiveNonces(s, es, j);
    Distinct(s.slots[s.cur].nonce2 + 1, i, j);
  }

  lemma Distinct(n: int, i: int, j: int)
    requires i < j && j - i < 0x1_0000_0000
    ensures (n + i) % 0x1_0000_0000 != (n + j) % 0x1_0000_0000
  {
  }

  // Every dispatched nonce2, told from the run

  /** The last SET. */
  function LastSet(es: Events): Option<Frame> {
    if es == [] then None
    else if IsSet(es[|es| - 1]) then Some(es[|es| - 1].p)
    else LastSet(es[..|es| - 1])
  }

  /** The dispatches since then. */
  function DispatchesSince(es: Events): nat {
    if es == [] || IsSet(es[|es| - 1]) then 0
    else DispatchesSince(es[..|es| - 1]) + (if es[|es| - 1].Dispatch? then 1 else 0)
  }

  /** Where the count starts: with the last SET's offset plus range or, before any SET, at `first`. */
  function EpochStart(first: U32, es: Events): int {
    match LastSet(es)
    case Some(p) => Field(Data(p), 8) as int + Field(Data(p), 12) as int
    case None => first
  }

  /** What is left behind after a SET or any other event. */
  lemma CounterStep(s: State, e: Event)
    requires Consistent(s) && Possible(e)
    ensures Consistent(Step(s, e))
    ensures CurrentCounter(Step(s, e)) ==
      if IsSet(e) then (Field(Data(e.p), 8) as int + Field(Data(e.p), 12) as int) % 0x1_0000_0000
      else if e.Dispatch? then (CurrentCounter(s) + 1) % 0x1_0000_0000 else CurrentCounter(s)
  {
    hide Accepted, PacketInRange, Field, Sized, InRange, AfterPacket, AfterDispatch, AfterCollect, IsSet;
    StepValid(s, e);
    if IsSet(e) {
      SetIsPacket(e);
      Upload.SetSlot(s, e.p);
    } else {
      CounterAfterStep(s, e);
    }
  }

  lemma SetIsPacket(e: Event)
    requires IsSet(e)
    ensures e.Packet?
  {
    hide Accepted;
  }

  function CurrentCounter(s: State): U32
    requires Consistent(s)
  {
    s.slots[s.cur].nonce2
  }

  lemma NothingSince(first: U32)
    ensures EpochStart(first, []) == first && DispatchesSince([]) == 0
  {
  }

  lemma SinceNext(first: U32, es: Events, n: nat)
    requires |es| == n + 1
    ensures IsSet(es[n]) ==> es[n].Packet? && DispatchesSince(es) == 0
    ensures IsSet(es[n]) ==> EpochStart(first, es) == Field(Data(es[n].p), 8) as int + Field(Data(es[n].p), 12) as int
    ensures !IsSet(es[n]) ==> EpochStart(first, es) == EpochStart(first, es[..n])
    ensures !IsSet(es[n]) ==> DispatchesSince(es) == DispatchesSince(es[..n]) + (if es[n].Dispatch? then 1 else 0)
  {
    hide Accepted, Field;
  }

  lemma {:induction false} CounterLaw(s: State, es: Events)
    requires Consistent(s) && AllPossible(es)
    ensures CurrentCounter(Run(s, es)) == (EpochStart(CurrentCounter(s), es) + DispatchesSince(es)) % 0x1_0000_0000
    decreases |es|
  {
    hide Step, Possible, Consistent, CurrentCounter, Run, IsSet, Field, AllPossible, EpochStart, DispatchesSince;
    if es == [] {
      NothingSince(CurrentCounter(s));
      Upload.NoRun(s);
    } else {
      var n := |es| - 1;
      Upload.PossibleFront(es, n);
      CounterLaw(s, es[..n]);
      Upload.RunLast(s, es, n);
      CounterStep(Run(s, es[..n]), es[n]);
      SinceNext(CurrentCounter(s), es, n);
    }
  }

  /** In any run, whatever happens: the nonce2 dispatched i dispatches after the last SET is that SET's
      offset + range + 1 + i modulo 2^32. */
  lemma NonceLaw(s: State, es: Events, chip: nat)
    requires Consistent(s) && AllPossible(es) && chip < CHIP_NUMBER
    ensures var t := AfterDispatch(Run(s, es), chip);
      chip < |t.chips| && t.chips[chip].nonce2 == (EpochStart(CurrentCounter(s), es) + DispatchesSince(es) + 1) % 0x1_0000_0000
  {
    hide EpochStart, DispatchesSince, Run, Patched, Sized, InRange;
    CounterLaw(s, es);
    assert NextNonce2Of(Run(s, es)) == (CurrentCounter(Run(s, es)) + 1) % 0x1_0000_0000;
  }

  /** Offset and range are those of the last SET, or as at power-on. */
  lemma {:induction false} RangeLaw(es: Events)
    requires AllPossible(es) && Consistent(INITIAL)
    ensures var t := Run(INITIAL, es);
      match LastSet(es)
      case Some(p) => t.nonce2Offset == Load32(p[13..17]) && t.nonce2Range == Load32(p[17..21])
      case None => t.nonce2Offset == 0 && t.nonce2Range == 0xffff_ffff
    decreases |es|
  {
    hide Step, Possible, Consistent, Run, IsSet, AllPossible, INITIAL, Load32;
    if es == [] {
      Upload.NoRun(INITIAL);
      RangeStarts(INITIAL);
    } else {
      var n := |es| - 1;
      Upload.PossibleFront(es, n);
      RangeLaw(es[..n]);
      Upload.RunLast(INITIAL, es, n);
      RangeStep(Run(INITIAL, es[..n]), es[n]);
    }
  }

  lemma RangeStarts(s: State)
    requires s == INITIAL
    ensures s.nonce2Offset == 0 && s.nonce2Range == 0xffff_ffff && !s.newStratum
  {
  }

  lemma RangeStep(s: State, e: Event)
    requires Consistent(s) && Possible(e)
    ensures Consistent(Step(s, e))
    ensures IsSet(e) ==> e.Packet? && Step(s, e).nonce2Offset == Load32(e.p[13..17]) && Step(s, e).nonce2Range == Load32(e.p[17..21])
    ensures !IsSet(e) ==> Step(s, e).nonce2Offset == s.nonce2Offset && Step(s, e).nonce2Range == s.nonce2Range
  {
    hide Patched, WithPacket, FirstSuccess, Accepted, Sized, InRange, PacketInRange, Load32;
    StepValid(s, e);
    if IsSet(e) {
      FieldBytes(e.p, 8);
      FieldBytes(e.p, 12);
    }
  }

  // When there is work

  /** An accepted packet with that type byte. */
  predicate IsType(e: Event, number: Byte) { e.Packet? && Accepted(e.p) && e.p[2] == number }

  /** A DETECT packet, or the idle timer. */
  predicate Stops(e: Event) { IsType(e, 10) || e == IdleTimeout }

  /** A SET packet came at i and nothing has stopped the work since. */
  predicate SetAt(es: Events, i: nat)
    requires i < |es|
  {
    IsType(es[i], 19) && forall k :: i < k < |es| ==> !Stops(es[k])
  }

  lemma WorkStep(s: State, e: Event)
    requires Consistent(s) && Possible(e)
    ensures Consistent(Step(s, e))
    ensures Step(s, e).newStratum == (IsType(e, 19) || (s.newStratum && !Stops(e)))
  {
    hide Patched, WithPacket, FirstSuccess, Accepted, Sized, InRange, PacketInRange;
    StepValid(s, e);
  }

  /** There is work to dispatch if and only if a SET came that neither a DETECT nor the idle timer has
      stopped. */
  lemma {:induction false} WorkLaw(es: Events)
    requires AllPossible(es) && Consistent(INITIAL)
    ensures Run(INITIAL, es).newStratum <==> exists i :: 0 <= i < |es| && SetAt(es, i)
    decreases |es|
  {
    hide Step, Possible, Consistent, Run, IsType, AllPossible, INITIAL, Stops;
    if es == [] {
      Upload.NoRun(INITIAL);
      RangeStarts(INITIAL);
    } else {
      var n := |es| - 1;
      Upload.PossibleFront(es, n);
      WorkLaw(es[..n]);
      Upload.RunLast(INITIAL, es, n);
      WorkStep(Run(INITIAL, es[..n]), es[n]);
      SetNext(es, n);
    }
  }

  lemma SetNext(es: Events, n: nat)
    requires |es| == n + 1
    ensures (exists i :: 0 <= i < |es| && SetAt(es, i)) <==>
      IsType(es[n], 19) || (!Stops(es[n]) && exists i :: 0 <= i < n && SetAt(es[..n], i))
  {
    hide IsType, Stops;
    if exists i :: 0 <= i < |es| && SetAt(es, i) {
      var i :| 0 <= i < |es| && SetAt(es, i);
      if i < n {
        assert SetAt(es[..n], i);
      }
    }
    if IsType(es[n], 19) {
      assert SetAt(es, n);
    } else if !Stops(es[n]) && exists i :: 0 <= i < n && SetAt(es[..n], i) {
      var i :| 0 <= i < n && SetAt(es[..n], i);
      assert es[..n][i] == es[i];
      forall k | i < k < |es| ensures !Stops(es[k]) {
        assert k < n ==> es[..n][k] == es[k];
      }
      assert SetAt(es, i);
    }
  }

  // Work and error totals

  /** What a run did, counted from its events. */
  datatype Totals = Totals(ready: nat, valid: nat, hw: nat, resets: nat, reportedLocal: nat, reportedHw: nat)

  predicate IsEmptyPoll(s: State, e: Event) {
    e.Packet? && Accepted(e.p) && Kind(e.p) == P_POLLING && s.consume == s.produce
  }

  /** What status reports tell: local work and hardware errors. */
  function LocalIn(rs: seq<Report>): nat
    decreases |rs|
  {
    if rs == [] then 0 else (match rs[0] case Status(local, _) => local case _ => 0) + LocalIn(rs[1..])
  }

  function HwIn(rs: seq<Report>): nat
    decreases |rs|
  {
    if rs == [] then 0 else (match rs[0] case Status(_, hw) => hw case _ => 0) + HwIn(rs[1..])
  }

  /** What a poll is answered with; nothing for other events. */
  function PollReplies(s: State, e: Event): seq<Report>
    requires Consistent(s)
  {
    if IsType(e, 16) then RepliesTo(s, e) else []
  }

  /** A poll that finds no result tells both counters, and other polls none. */
  lemma PollTells(s: State, e: Event)
    requires Consistent(s)
    ensures LocalIn(PollReplies(s, e)) == if IsEmptyPoll(s, e) then s.localWork else 0
    ensures HwIn(PollReplies(s, e)) == if IsEmptyPoll(s, e) then s.hwWork else 0
  {
    hide Accepted, SlotsValid, ChipsValid;
    if IsType(e, 16) {
      var rs := RepliesTo(s, e);
      assert rs == [PollReport(s)] && rs[1..] == [];
    }
  }

  /** A ready chip without a good nonce, in a pass that has found none yet. */
  predicate HwError(s: State, e: Event)
    requires Consistent(s) && Possible(e)
  {
    e.Collect? && !Hit(s, e) && !s.found
  }

  function Count(s: State, es: Events): Totals
    requires Consistent(s) && AllPossible(es)
    decreases |es|
  {
    if es == [] then Totals(0, 0, 0, 0, 0, 0)
    else
      StepValid(s, es[0]);
      var e, t := es[0], Count(Step(s, es[0]), es[1..]);
      Totals(
        t.ready + (if e.Collect? then 1 else 0),
        t.valid + (if Hit(s, e) then 1 else 0),
        t.hw + (if HwError(s, e) then 1 else 0),
        t.resets + (if HwError(s, e) && s.resetFlag == 9 then 1 else 0),
        t.reportedLocal + LocalIn(PollReplies(s, e)),
        t.reportedHw + HwIn(PollReplies(s, e)))
  }

  lemma CountersAfterStep(s: State, e: Event)
    requires Consistent(s) && Possible(e)
    ensures Consistent(Step(s, e))
    ensures Step(s, e).localWork == if IsEmptyPoll(s, e) then 0 else s.localWork + if e.Collect? then 1 else 0
    ensures Step(s, e).hwWork == if IsEmptyPoll(s, e) then 0 else s.hwWork + if HwError(s, e) then 1 else 0
    ensures Step(s, e).totalNonce == s.totalNonce + if Hit(s, e) then 1 else 0
    ensures Step(s, e).resetFlag == if HwError(s, e) then (s.resetFlag + 1) % 10 else s.resetFlag
    ensures Step(s, e).found == if e == PassStart then false else s.found || Hit(s, e)
  {
    hide Patched, FirstSuccess, WithPacket, Accepted, Sized, InRange, PacketInRange;
    StepValid(s, e);
  }

  /** Nothing is lost: what polls were told and what is still counted add up to what happened. */
  lemma {:induction false} CountersAddUp(s: State, es: Events)
    requires Consistent(s) && AllPossible(es)
    ensures var t, c := Run(s, es), Count(s, es);
      && c.reportedLocal + t.localWork == s.localWork + c.ready
      && c.reportedHw + t.hwWork == s.hwWork + c.hw
      && t.totalNonce == s.totalNonce + c.valid
    decreases |es|
  {
    hide Step, Possible, IsEmptyPoll, Hit, HwError, Consistent, LocalIn, HwIn, PollReplies;
    if es != [] {
      CountersAfterStep(s, es[0]);
      HitIsCollect(s, es[0]);
      PollTells(s, es[0]);
      CountersAddUp(Step(s, es[0]), es[1..]);
    }
  }

  /** A REQUIRE is told, at any time, what happened less what polls were told, and changes nothing. */
  lemma RequireTells(es: Events, e: Event)
    requires Consistent(INITIAL) && AllPossible(es) && Possible(e) && IsType(e, 18)
    ensures var s, c := Run(INITIAL, es), Count(INITIAL, es);
      c.reportedLocal <= c.ready && c.reportedHw <= c.hw && Step(s, e) == s
      && RepliesTo(s, e) == [Status(c.ready - c.reportedLocal, c.hw - c.reportedHw)]
  {
    hide Run, Count, Accepted, Consistent, AllPossible, INITIAL;
    CountersAddUp(INITIAL, es);
    NothingCounted(INITIAL);
  }

  lemma NothingCounted(s: State)
    requires s == INITIAL
    ensures s.localWork == 0 && s.hwWork == 0
  {
  }

  /** Every tenth hardware error resets the chips, and only those do. */
  lemma {:induction false} ResetLaw(s: State, es: Events)
    requires Consistent(s) && AllPossible(es)
    ensures var t, c := Run(s, es), Count(s, es);
      10 * c.resets + t.resetFlag == s.resetFlag + c.hw && t.resetFlag < 10
    decreases |es|
  {
    hide Step, Possible, IsEmptyPoll, Hit, HwError, Consistent, LocalIn, HwIn, PollReplies;
    FlagBelow(s);
    if es != [] {
      CountersAfterStep(s, es[0]);
      ResetLaw(Step(s, es[0]), es[1..]);
    }
  }

  lemma FlagBelow(s: State)
    requires Consistent(s)
    ensures s.resetFlag < 10
  {
  }

  lemma HitIsCollect(s: State, e: Event)
    requires Consistent(s) && Possible(e)
    ensures Hit(s, e) || HwError(s, e) ==> e.Collect?
    ensures !(Hit(s, e) && HwError(s, e))
    ensures IsEmptyPoll(s, e) ==> e.Packet?
  {
    hide FirstSuccess;
  }

  /** The failures that are not counted: those after the first good nonce of their pass. */
  predicate Uncounted(s: State, e: Event)
    requires Consistent(s) && Possible(e)
  {
    e.Collect? && !Hit(s, e) && s.found
  }

  function UncountedIn(s: State, es: Events): nat
    requires Consistent(s) && AllPossible(es)
    decreases |es|
  {
    if es == [] then 0
    else
      StepValid(s, es[0]);
      (if Uncounted(s, es[0]) then 1 else 0) + UncountedIn(Step(s, es[0]), es[1..])
  }

  /** Local work is valid results, hardware errors and the failures after a success of their pass. */
  lemma {:induction false} LocalWorkLaw(s: State, es: Events)
    requires Consistent(s) && AllPossible(es)
    ensures var c := Count(s, es); c.ready == c.valid + c.hw + UncountedIn(s, es)
    decreases |es|
  {
    hide Step, Possible, IsEmptyPoll, Hit, Consistent, LocalIn, HwIn, PollReplies;
    if es != [] {
      CountersAfterStep(s, es[0]);
      HitIsCollect(s, es[0]);
      LocalWorkLaw(Step(s, es[0]), es[1..]);
    }
  }

  /** A hit happened at i, and no pass has started since. */
  predicate HitAt(es: Events, i: nat)
    requires AllPossible(es) && i < |es|
  {
    Hit(Before(es, i), es[i]) && forall j :: i < j < |es| ==> es[j] != PassStart
  }

  /** `found` means what it is named for, over every run from power-on. */
  lemma {:induction false} FoundMeansHit(es: Events)
    requires AllPossible(es)
    ensures TraceOf(es).st.found <==> exists i :: 0 <= i < |es| && HitAt(es, i)
    decreases |es|
  {
    hide TraceStep, Hit, Step, Consistent, Possible;
    if es == [] {
      assert !INITIAL.found;
    } else {
      var n := |es| - 1;
      var front, e := es[..n], es[n];
      FoundMeansHit(front);
      FoundAfter(es);
      if e != PassStart {
        if exists i :: 0 <= i < n && HitAt(front, i) {
          var i :| 0 <= i < n && HitAt(front, i);
          assert front[..i] == es[..i];
          assert HitAt(es, i);
        }
        if Hit(Before(es, n), e) {
          assert HitAt(es, n);
        }
        if i :| 0 <= i < |es| && HitAt(es, i) {
          if i < n {
            assert front[..i] == es[..i];
            assert HitAt(front, i);
          }
        }
      }
    }
  }

  lemma FoundAfter(es: Events)
    requires AllPossible(es) && es != []
    ensures var n := |es| - 1;
      && Before(es, n) == TraceOf(es[..n]).st
      && TraceOf(es).st.found == (es[n] != PassStart && (Before(es, n).found || Hit(Before(es, n), es[n])))
      && (Hit(Before(es, n), es[n]) ==> es[n] != PassStart)
  {
    hide Step, FirstSuccess;
    var n := |es| - 1;
    CountersAfterStep(Before(es, n), es[n]);
  }
}
