/** The ring of found nonces, over whole runs from power-on. */
module ResultRing {
  import opened WorkSpec
  import opened Packets
  import opened Options
  import opened ManagerSpec
  import opened JobSafety
  import opened Provenance
  import opened Rings

  predicate IsTimeout(s: State, e: Event) { e == IdleTimeout && s.newStratum }

  predicate IsTake(s: State, e: Event) {
    e.Packet? && Accepted(e.p) && Kind(e.p) == P_POLLING && s.consume != s.produce
  }

  /** The result a hit puts into the ring. */
  function Found(s: State, e: Event): Result
    requires Consistent(s) && Possible(e) && Hit(s, e)
  {
    var k, n := s.chips[e.chip].mmIdx, s.chips[e.chip].nonce2;
    Result(e.chip, n, FirstSuccess(s.slots[k], n, e.answer, 0).value, k)
  }

  /** Every result found since the last idle timeout. */
  function Log(es: Events): seq<Result>
    requires AllPossible(es)
    decreases |es|
  {
    if es == [] then []
    else
      var n := |es| - 1;
      var s, e := Before(es, n), es[n];
      if IsTimeout(s, e) then [] else Log(es[..n]) + if Hit(s, e) then [Found(s, e)] else []
  }

  /** How many results were reported since the last idle timeout. */
  function Taken(es: Events): nat
    requires AllPossible(es)
    decreases |es|
  {
    if es == [] then 0
    else
      var n := |es| - 1;
      var s, e := Before(es, n), es[n];
      if IsTimeout(s, e) then 0 else Taken(es[..n]) + if IsTake(s, e) then 1 else 0
  }

  function RingOf(s: State): Ring<Result> { Ring(s.ring, s.produce, s.consume) }

  lemma RingAfterStep(s: State, e: Event)
    requires Consistent(s) && Possible(e)
    ensures Consistent(Step(s, e)) && Proper(RingOf(s))
    ensures RingOf(Step(s, e)) ==
      if IsTimeout(s, e) then Ring(s.ring, 0, 0)
      else if Hit(s, e) then Push(RingOf(s), Found(s, e))
      else if IsTake(s, e) then Drop(RingOf(s))
      else RingOf(s)
  {
    hide Patched, FirstSuccess, WithPacket, Accepted, Sized, InRange, PacketInRange;
    StepValid(s, e);
  }

  lemma OneKind(s: State, e: Event)
    requires Consistent(s) && Possible(e)
    ensures Hit(s, e) ==> !IsTake(s, e) && !IsTimeout(s, e)
    ensures IsTake(s, e) ==> !IsTimeout(s, e)
  {
    hide FirstSuccess, Accepted;
  }

  /** In every run the ring's cells and indices are those of the results found and reported. */
  lemma {:induction false} RingShows(es: Events)
    requires AllPossible(es)
    ensures Shows(RingOf(TraceOf(es).st), Log(es), Taken(es))
    decreases |es|
  {
    hide Step, Hit, IsTake, IsTimeout, Found, Consistent, Possible, Push, Drop;
    if es != [] {
      var n := |es| - 1;
      var s, e := Before(es, n), es[n];
      RingShows(es[..n]);
      RingAfterStep(s, e);
      OneKind(s, e);
      if Hit(s, e) {
        PushShows(RingOf(s), Log(es[..n]), Taken(es[..n]), Found(s, e));
      } else if IsTake(s, e) {
        TakeIsBehind(s, e, Log(es[..n]), Taken(es[..n]));
        DropShows(RingOf(s), Log(es[..n]), Taken(es[..n]));
      } else {
        assert Log(es[..n]) + [] == Log(es[..n]);
      }
    }
  }

  lemma TakeIsBehind(s: State, e: Event, log: seq<Result>, taken: nat)
    requires IsTake(s, e) && Shows(RingOf(s), log, taken)
    ensures taken < |log|
  {
    DifferentIsBehind(RingOf(s), log, taken);
  }

  /** A poll reports the oldest of the newest (found - reported) mod 64 results; below 64
      outstanding that is the oldest result not yet reported. */
  lemma PollReportsNewest(es: Events)
    requires AllPossible(es)
    ensures var s, log, taken := TraceOf(es).st, Log(es), Taken(es);
      var waiting := (|log| - taken) % RING_SIZE;
      && taken <= |log| && waiting <= |log|
      && (s.consume == s.produce <==> waiting == 0)
      && (waiting > 0 ==> s.ring[s.consume] == log[|log| - waiting])
      && (0 < |log| - taken < RING_SIZE ==> s.ring[s.consume] == log[taken])
  {
    hide TraceOf, Log, Taken, Step, Consistent, Shows;
    RingShows(es);
    Within(TraceOf(es).st, Log(es), Taken(es));
    HeadIsNewest(RingOf(TraceOf(es).st), Log(es), Taken(es));
  }

  lemma Within(s: State, log: seq<Result>, taken: nat)
    requires Consistent(s) && Shows(RingOf(s), log, taken)
    ensures taken <= |log| && |s.ring| == RING_SIZE
  {
  }

  /** The cells written since the last idle timeout have an origin. */
  ghost predicate Written(es: Events)
    requires AllPossible(es)
  {
    forall i :: 0 <= i < RING_SIZE && i < |Log(es)| ==> TraceOf(es).ring[i].Some?
  }

  lemma {:induction false} WrittenCells(es: Events)
    requires AllPossible(es)
    ensures Written(es)
    decreases |es|
  {
    hide Step, Hit, IsTake, IsTimeout, Found, Consistent, Possible, Push, Drop, Shows, TraceStep;
    if es != [] {
      var n := |es| - 1;
      var s, e := Before(es, n), es[n];
      WrittenCells(es[..n]);
      RingShows(es[..n]);
      ProduceIs(s, Log(es[..n]), Taken(es[..n]));
      RingWrites(es);
      OneKind(s, e);
    }
  }

  lemma ProduceIs(s: State, log: seq<Result>, taken: nat)
    requires Consistent(s) && Shows(RingOf(s), log, taken)
    ensures s.produce == |log| % RING_SIZE && s.consume == taken % RING_SIZE
    ensures s.consume != s.produce ==> taken < |log|
  {
  }

  lemma RingWrites(es: Events)
    requires AllPossible(es) && es != []
    ensures var n := |es| - 1;
      && Before(es, n) == TraceOf(es[..n]).st && Before(es, n).produce < RING_SIZE
      && forall i :: 0 <= i < RING_SIZE ==>
           TraceOf(es).ring[i].Some? == (TraceOf(es[..n]).ring[i].Some? || (Hit(Before(es, n), es[n]) && i == Before(es, n).produce))
  {
    hide Step, FirstSuccess;
  }

  /** What a poll reports was found in this run. */
  lemma PolledHasOrigin(es: Events)
    requires AllPossible(es) && TraceOf(es).st.consume != TraceOf(es).st.produce
    ensures TraceOf(es).ring[TraceOf(es).st.consume].Some?
  {
    hide TraceOf, Log, Taken, Step, Consistent, Shows;
    RingShows(es);
    WrittenCells(es);
    var s := TraceOf(es).st;
    Within(s, Log(es), Taken(es));
    ProduceIs(s, Log(es), Taken(es));
  }
}
