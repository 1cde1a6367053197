/** A run from power-on that overruns the result ring: 64 chips find a nonce in one pass, and the ring,
    full, looks empty to the poll. */
module LostResults {
  import opened Words
  import opened Options
  import opened WorkSpec
  import opened Packets
  import opened ManagerSpec
  import opened Transcript
  import opened KnownJob
  import opened JobSafety
  import opened Story
  import Upload
  import P = Provenance

  // The events

  /** Work for the first n chips. */
  function Gives(n: nat): Events { seq(n, i requires 0 <= i < n => Dispatch(i)) }

  /** The first n chips answer with the known nonce. */
  function Answers(n: nat): Events { seq(n, i requires 0 <= i < n => Collect(i, NONCE)) }

  function Flood(): Events { Uploads() + [Set()] + Gives(RING_SIZE) + [PassStart] + Answers(RING_SIZE) + [Poll()] }

  // The states passed through

  /** The known job is current and the first n chips work on it. */
  predicate Working(s: State, n: nat) {
    && Consistent(s) && s.cur == 1 && Mine(s.slots[1]) && n <= CHIP_NUMBER
    && (forall c :: 0 <= c < n ==> s.chips[c].mmIdx == 1)
    && s.consume == 0 && s.hwWork == 0
  }

  /** The results of n chips are in the ring. */
  predicate Gathered(s: State, n: nat) {
    Working(s, RING_SIZE) && s.produce == n % RING_SIZE && s.localWork == n && s.totalNonce == n
  }

  lemma GiveOne(s: State, n: nat)
    requires Working(s, n) && NoResults(s) && n < RING_SIZE
    ensures Possible(Dispatch(n)) && Working(Step(s, Dispatch(n)), n + 1) && NoResults(Step(s, Dispatch(n)))
  {
    hide Known, Patched, Sized, InRange;
    DispatchValid(s, n);
    var j, m := s.slots[1], NextNonce2Of(s);
    Counted(j, m);
    MineKept(j.(nonce2 := m), m);
  }

  predicate NoResults(s: State) { s.produce == 0 && s.localWork == 0 && s.totalNonce == 0 }

  lemma Counted(j: Job, m: U32)
    requires Mine(j)
    ensures Mine(j.(nonce2 := m))
  {
    hide FirstChunk, NextChunk, LastChunk, Easiest;
  }

  lemma AnswerOne(s: State, n: nat)
    requires Gathered(s, n) && n < RING_SIZE
    ensures Possible(Collect(n, NONCE)) && Gathered(Step(s, Collect(n, NONCE)), n + 1) && Hits(s, Collect(n, NONCE))
  {
    hide Known, Patched, FirstSuccess, Sized, InRange;
    CollectValid(s, n, NONCE);
    MineKept(s.slots[1], s.chips[n].nonce2);
    FirstTry(s.slots[1], s.chips[n].nonce2);
  }

  // Silent runs

  ghost predicate Quietly(s: State, es: Events, t: State) {
    Consistent(s) && AllPossible(es) && t == Run(s, es) && Reports(s, es) == []
  }

  lemma QuietlyOn(s: State, a: Events, t: State, b: Events, u: State)
    requires Quietly(s, a, t) && Quietly(t, b, u)
    ensures Quietly(s, a + b, u)
  {
    hide Run, Reports, Possible, Consistent;
    RunAppend(s, a, b);
    ReportsAppend(s, a, b);
  }

  lemma QuietlyOne(s: State, e: Event)
    requires Consistent(s) && Possible(e) && RepliesTo(s, e) == []
    ensures Quietly(s, [e], Step(s, e))
  {
    hide Step, Possible, Consistent, RepliesTo;
    OneEvent(s, e);
  }

  lemma {:induction false} GiveAll(s: State, n: nat) returns (t: State)
    requires Working(s, 0) && NoResults(s) && n <= RING_SIZE
    ensures Quietly(s, Gives(n), t) && Working(t, n) && NoResults(t)
    decreases n
  {
    hide Step, Possible, Working, Run, Reports, Quietly;
    WorkingConsistent(s, 0);
    if n == 0 {
      t := s;
      NothingQuiet(s);
    } else {
      var r := GiveAll(s, n - 1);
      WorkingConsistent(r, n - 1);
      GiveOne(r, n - 1);
      t := Step(r, Dispatch(n - 1));
      QuietlyOne(r, Dispatch(n - 1));
      QuietlyOn(s, Gives(n - 1), r, [Dispatch(n - 1)], t);
      assert Gives(n) == Gives(n - 1) + [Dispatch(n - 1)];
    }
  }

  lemma {:induction false} AnswerAll(s: State, n: nat) returns (t: State)
    requires Gathered(s, 0) && n <= RING_SIZE
    ensures Quietly(s, Answers(n), t) && Gathered(t, n)
    decreases n
  {
    hide Step, Possible, Gathered, Run, Reports, Quietly, Hits;
    GatheredConsistent(s, 0);
    if n == 0 {
      t := s;
      NothingQuiet(s);
    } else {
      var r := AnswerAll(s, n - 1);
      GatheredConsistent(r, n - 1);
      AnswerOne(r, n - 1);
      var e := Collect(n - 1, NONCE);
      t := Step(r, e);
      QuietlyOne(r, e);
      QuietlyOn(s, Answers(n - 1), r, [e], t);
      assert Answers(n) == Answers(n - 1) + [e];
    }
  }

  lemma WorkingConsistent(s: State, n: nat)
    requires Working(s, n)
    ensures Consistent(s)
  {
  }

  lemma GatheredConsistent(s: State, n: nat)
    requires Gathered(s, n)
    ensures Consistent(s)
  {
  }

  lemma NothingQuiet(s: State)
    requires Consistent(s)
    ensures Quietly(s, Gives(0), s) && Quietly(s, Answers(0), s)
  {
    assert Gives(0) == [] && Answers(0) == [];
  }

  lemma SetWorking(s: State)
    requires Loaded(s, 0)
    ensures Possible(Set()) && RepliesTo(s, Set()) == []
    ensures Working(Step(s, Set()), 0) && NoResults(Step(s, Set()))
  {
    hide Known, RepliesTo, Step, Set, Possible;
    SetLoaded(s);
  }

  lemma PassStarted(s: State)
    requires Working(s, RING_SIZE) && NoResults(s)
    ensures Possible(PassStart) && RepliesTo(s, PassStart) == [] && Gathered(Step(s, PassStart), 0)
  {
    hide Known;
    StepValid(s, PassStart);
  }

  lemma FullPoll(s: State)
    requires Gathered(s, RING_SIZE)
    ensures Possible(Poll()) && RepliesTo(s, Poll()) == [Status(RING_SIZE, 0)] && Consistent(Step(s, Poll()))
  {
    hide Accepted, Made, Sized, InRange, Known;
    MadeAccepted(P_POLLING, 1, Nothing());
    StepValid(s, Poll());
  }

  /** From power-on: 64 nonces are found, and the one report sent says that there are none. */
  lemma ResultsLost()
    ensures Tells(INITIAL, Flood(), [Status(64, 0)]) && FoundIn(INITIAL, Flood(), 64)
  {
    hide Run, Reports, Possible, Step, Consistent, AllPossible, Loaded, Uploads, Set, Poll, Fresh, INITIAL, Working, Gathered, Quietly,
      Gives, Answers, RepliesTo, Tells, FoundIn;
    PowerOnFresh();
    FreshConsistent(INITIAL);
    UploadRuns(INITIAL);
    var s := Run(INITIAL, Uploads());
    UploadQuiet(INITIAL, s);
    LoadedConsistent(s, 0);
    SetWorking(s);
    var s1 := Step(s, Set());
    QuietlyOne(s, Set());
    QuietlyOn(INITIAL, Uploads(), s, [Set()], s1);
    var s2 := GiveAll(s1, RING_SIZE);
    QuietlyOn(INITIAL, Uploads() + [Set()], s1, Gives(RING_SIZE), s2);
    WorkingConsistent(s2, RING_SIZE);
    PassStarted(s2);
    var s3 := Step(s2, PassStart);
    QuietlyOne(s2, PassStart);
    QuietlyOn(INITIAL, Uploads() + [Set()] + Gives(RING_SIZE), s2, [PassStart], s3);
    var s4 := AnswerAll(s3, RING_SIZE);
    QuietlyOn(INITIAL, Uploads() + [Set()] + Gives(RING_SIZE) + [PassStart], s3, Answers(RING_SIZE), s4);
    Finish(INITIAL, Uploads() + [Set()] + Gives(RING_SIZE) + [PassStart] + Answers(RING_SIZE), s4);
  }

  /** So many nonces were found, as `g_total_nonce` counts them. */
  ghost predicate FoundIn(s: State, es: Events, n: nat) {
    Consistent(s) && AllPossible(es) && Run(s, es).totalNonce == n
  }

  lemma UploadQuiet(s: State, t: State)
    requires Consistent(s) && AllPossible(Uploads()) && t == Run(s, Uploads()) && Reports(s, Uploads()) == []
    ensures Quietly(s, Uploads(), t)
  {
    hide Run, Reports, Uploads, AllPossible, Consistent;
  }

  lemma Finish(s: State, es: Events, t: State)
    requires Quietly(s, es, t) && Gathered(t, RING_SIZE)
    ensures Tells(s, es + [Poll()], [Status(RING_SIZE, 0)]) && FoundIn(s, es + [Poll()], RING_SIZE)
  {
    hide Run, Reports, Possible, Step, Consistent, Poll, RepliesTo, Gathered;
    GatheredConsistent(t, RING_SIZE);
    FullPoll(t);
    OneEvent(t, Poll());
    RunAppend(s, es, [Poll()]);
    ReportsAppend(s, es, [Poll()]);
    PollCounts(t);
    assert [] + [Status(RING_SIZE, 0)] == [Status(RING_SIZE, 0)];
  }

  lemma PollCounts(t: State)
    requires Gathered(t, RING_SIZE) && Possible(Poll())
    ensures Step(t, Poll()).totalNonce == RING_SIZE
  {
    hide Accepted, Made, Sized, InRange, Known;
  }
}
