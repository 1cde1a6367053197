/** Where every chip record and every result came from, over whole runs from power-on. */
module Provenance {
  import opened Words
  import opened WorkSpec
  import opened Packets
  import opened Options
  import opened ManagerSpec
  import opened JobSafety
  import Bytes

  /** When a result was found, and when the work it answers was dispatched; a chip may answer although
      it was never given work. */
  datatype Origin = Origin(dispatched: Option<nat>, found: nat)

  /** The manager with the times its records were written. */
  datatype Trace = Trace(st: State, chips: seq<Option<nat>>, ring: seq<Option<Origin>>)

  predicate Hit(s: State, e: Event)
    requires Consistent(s) && Possible(e)
  {
    e.Collect? && FirstSuccess(s.slots[s.chips[e.chip].mmIdx], s.chips[e.chip].nonce2, e.answer, 0).Some?
  }

  predicate Shaped(tr: Trace) {
    Consistent(tr.st) && |tr.chips| == CHIP_NUMBER && |tr.ring| == RING_SIZE
  }

  function TraceStep(tr: Trace, e: Event, now: nat): (next: Trace)
    requires Shaped(tr) && Possible(e)
    ensures Shaped(next)
  {
    hide Step, FirstSuccess;
    StepValid(tr.st, e);
    Trace(
      Step(tr.st, e),
      if e.Dispatch? then tr.chips[e.chip := Some(now)] else tr.chips,
      if Hit(tr.st, e) then tr.ring[tr.st.produce := Some(Origin(tr.chips[e.chip], now))] else tr.ring)
  }

  /** The run of `es` from power-on. */
  function TraceOf(es: Events): (tr: Trace)
    requires AllPossible(es)
    ensures Shaped(tr)
    decreases |es|
  {
    if es == [] then
      InitialValid();
      Trace(INITIAL, seq(CHIP_NUMBER, _ => None), seq(RING_SIZE, _ => None))
    else
      TraceStep(TraceOf(es[..|es| - 1]), es[|es| - 1], |es| - 1)
  }

  /** The state before event t. */
  function Before(es: Events, t: nat): (s: State)
    requires AllPossible(es) && t <= |es|
    ensures Consistent(s)
  {
    TraceOf(es[..t]).st
  }

  lemma {:induction false} TraceIsRun(es: Events)
    requires AllPossible(es) && Consistent(INITIAL)
    ensures TraceOf(es).st == Run(INITIAL, es)
    decreases |es|
  {
    hide Step, Consistent, Possible, FirstSuccess;
    if es != [] {
      var n := |es| - 1;
      TraceIsRun(es[..n]);
      RunAppend(INITIAL, es[..n], [es[n]]);
      assert es == es[..n] + [es[n]];
      var last := [es[n]];
      assert last[1..] == [];
    }
  }

  /** From event t on, the state is the run of the events since t. */
  lemma {:induction false} BeforeRuns(es: Events, t: nat)
    requires AllPossible(es) && t <= |es|
    ensures TraceOf(es).st == Run(Before(es, t), es[t..])
    decreases |es| - t
  {
    hide Step, Consistent, Possible, FirstSuccess;
    if t == |es| {
      assert es[..t] == es;
    } else {
      BeforeRuns(es, t + 1);
      assert es[..t + 1][..t] == es[..t];
      assert es[t..][1..] == es[t + 1..];
    }
  }

  /** The job and the nonce2 of the work dispatched at time t. */
  function JobAt(es: Events, t: nat): (j: Job)
    requires AllPossible(es) && t < |es|
    ensures Sized(j) && InRange(j)
  {
    var s := Before(es, t);
    s.slots[s.cur]
  }

  function Nonce2At(es: Events, t: nat): U32
    requires AllPossible(es) && t < |es|
  {
    (JobAt(es, t).nonce2 + 1) % 0x1_0000_0000
  }

  ghost predicate ChipsKnown(es: Events)
    requires AllPossible(es)
  {
    var tr := TraceOf(es);
    forall c :: 0 <= c < CHIP_NUMBER ==> ChipKnown(es, c, tr.chips[c])
  }

  /** Chip c was last given work at time b, and its record says which; or its record is as at power-on. */
  ghost predicate ChipKnown(es: Events, c: nat, b: Option<nat>)
    requires AllPossible(es) && c < CHIP_NUMBER
  {
    var record := TraceOf(es).st.chips[c];
    match b
    case Some(b) => b < |es| && es[b] == Dispatch(c) && record == Chip(Nonce2At(es, b), Before(es, b).cur)
    case None => record == Chip(0, 0)
  }

  ghost predicate RingKnown(es: Events)
    requires AllPossible(es)
  {
    var tr := TraceOf(es);
    forall i :: 0 <= i < RING_SIZE && tr.ring[i].Some? ==> ResultKnown(es, tr.st.ring[i], tr.ring[i].value)
  }

  /** The hash of a result was good for its slot when it was found, and the result answers the work
      dispatched to its chip at `o.dispatched`, or that of the zeroed chip record. */
  ghost predicate ResultKnown(es: Events, r: Result, o: Origin)
    requires AllPossible(es)
  {
    && o.found < |es| && r.mmIdx < MM_BUF_NUM
    && Check(Before(es, o.found).slots[r.mmIdx], r.nonce2, r.nonce) == Diff
    && match o.dispatched
       case Some(b) =>
         b < o.found && es[b] == Dispatch(r.idx) && r.nonce2 == Nonce2At(es, b) && r.mmIdx == Before(es, b).cur
       case None => r.nonce2 == 0 && r.mmIdx == 0
  }

  lemma BeforeExtends(es: Events, e: Event, t: nat)
    requires AllPossible(es) && Possible(e) && t <= |es|
    ensures AllPossible(es + [e]) && Before(es + [e], t) == Before(es, t)
  {
    assert (es + [e])[..t] == es[..t];
  }

  lemma ChipKnownExtends(es: Events, e: Event, c: nat, b: Option<nat>)
    requires AllPossible(es) && Possible(e) && c < CHIP_NUMBER && ChipKnown(es, c, b)
    requires AllPossible(es + [e]) && TraceOf(es + [e]).st.chips[c] == TraceOf(es).st.chips[c]
    ensures ChipKnown(es + [e], c, b)
  {
    hide TraceOf;
    if b.Some? {
      BeforeExtends(es, e, b.value);
    }
  }

  lemma ResultKnownExtends(es: Events, e: Event, r: Result, o: Origin)
    requires AllPossible(es) && Possible(e) && ResultKnown(es, r, o)
    ensures AllPossible(es + [e]) && ResultKnown(es + [e], r, o)
  {
    hide TraceOf, Check;
    if o.dispatched.Some? {
      BeforeExtends(es, e, o.dispatched.value);
    }
    BeforeExtends(es, e, o.found);
  }

  /** The first success is a success. */
  lemma {:induction false} SuccessIsGood(j: Job, nonce2: U32, answer: U32, i: nat)
    requires Sized(j) && InRange(j) && i <= 9
    ensures var hit := FirstSuccess(j, nonce2, answer, i);
      hit.Some? ==> Check(j, nonce2, hit.value) == Diff
    decreases 9 - i
  {
    hide Check;
    if i < 9 {
      SuccessIsGood(j, nonce2, answer, i + 1);
    }
  }

  /** The k-th nonce tried around a chip's answer. */
  function Tried(answer: U32, k: nat): U32
    requires k < 9
  {
    (answer + [0, -1, 1, -2, 2, -3, 3, 4, -4][k]) % 0x1_0000_0000
  }

  lemma CandidateTried(answer: U32, k: nat)
    requires k < 9
    ensures Candidate(answer, k) == Tried(answer, k)
  {
  }

  /** What is searched for: the first nonce in that order that succeeds; nothing only when all nine fail. */
  lemma {:induction false} FirstInOrder(j: Job, nonce2: U32, answer: U32, i: nat)
    requires Sized(j) && InRange(j) && i <= 9
    ensures match FirstSuccess(j, nonce2, answer, i)
      case Some(nonce) => exists k :: i <= k < 9 && nonce == Tried(answer, k) && FirstAt(j, nonce2, answer, i, k)
      case None => forall m :: i <= m < 9 ==> Check(j, nonce2, Tried(answer, m)) != Diff
    decreases 9 - i
  {
    hide Check, Candidate, Tried;
    if i < 9 {
      CandidateTried(answer, i);
      FirstInOrder(j, nonce2, answer, i + 1);
      if Check(j, nonce2, Candidate(answer, i)) == Diff {
        assert FirstAt(j, nonce2, answer, i, i);
      } else if FirstSuccess(j, nonce2, answer, i + 1).Some? {
        var k :| i + 1 <= k < 9 && FirstSuccess(j, nonce2, answer, i + 1).value == Tried(answer, k) && FirstAt(j, nonce2, answer, i + 1, k);
        assert FirstAt(j, nonce2, answer, i, k);
      }
    }
  }

  /** Nonce k succeeds and those before it, from i on, fail. */
  predicate FirstAt(j: Job, nonce2: U32, answer: U32, i: nat, k: nat)
    requires Sized(j) && InRange(j) && i <= k < 9
  {
    Check(j, nonce2, Tried(answer, k)) == Diff && forall m :: i <= m < k ==> Check(j, nonce2, Tried(answer, m)) != Diff
  }

  lemma TraceNext(es: Events, e: Event)
    requires AllPossible(es) && Possible(e)
    ensures AllPossible(es + [e]) && TraceOf(es + [e]) == TraceStep(TraceOf(es), e, |es|)
  {
    hide TraceStep;
    assert (es + [e])[..|es|] == es;
  }

  lemma ChipsKnownNext(es: Events, e: Event)
    requires AllPossible(es) && Possible(e) && ChipsKnown(es)
    ensures AllPossible(es + [e]) && ChipsKnown(es + [e])
  {
    hide TraceOf, Patched, FirstSuccess, AfterPacket, PacketInRange;
    TraceNext(es, e);
    var tr, next := TraceOf(es), TraceOf(es + [e]);
    forall c | 0 <= c < CHIP_NUMBER ensures ChipKnown(es + [e], c, next.chips[c]) {
      ChipsAfter(tr.st, e, c);
      BeforeExtends(es, e, |es|);
      assert es[..|es|] == es;
      if e == Dispatch(c) {
        assert (es + [e])[|es|] == e;
      } else {
        ChipKnownExtends(es, e, c, tr.chips[c]);
      }
    }
  }

  lemma ChipsAfter(s: State, e: Event, c: nat)
    requires Consistent(s) && Possible(e) && c < CHIP_NUMBER
    ensures Consistent(Step(s, e))
    ensures Step(s, e).chips[c] ==
      if e == Dispatch(c) then Chip((s.slots[s.cur].nonce2 + 1) % 0x1_0000_0000, s.cur) else s.chips[c]
  {
    hide Patched, FirstSuccess, WithPacket, Accepted, Sized, InRange, PacketInRange;
    StepValid(s, e);
  }

  lemma RingAfter(s: State, e: Event, i: nat)
    requires Consistent(s) && Possible(e) && i < RING_SIZE
    ensures Consistent(Step(s, e))
    ensures Hit(s, e) && i == s.produce ==>
      var k, n := s.chips[e.chip].mmIdx, s.chips[e.chip].nonce2;
      && Step(s, e).ring[i] == Result(e.chip, n, FirstSuccess(s.slots[k], n, e.answer, 0).value, k)
      && Check(s.slots[k], n, Step(s, e).ring[i].nonce) == Diff
    ensures !(Hit(s, e) && i == s.produce) ==> Step(s, e).ring[i] == s.ring[i]
  {
    hide Patched, FirstSuccess, WithPacket, Accepted, Sized, InRange, PacketInRange, Check;
    StepValid(s, e);
    if e.Collect? {
      SuccessIsGood(s.slots[s.chips[e.chip].mmIdx], s.chips[e.chip].nonce2, e.answer, 0);
    }
  }

  lemma RingKnownNext(es: Events, e: Event)
    requires AllPossible(es) && Possible(e) && ChipsKnown(es) && RingKnown(es)
    ensures AllPossible(es + [e]) && RingKnown(es + [e])
  {
    hide TraceOf, FirstSuccess, Step, Check, PacketInRange;
    TraceNext(es, e);
    var tr, next := TraceOf(es), TraceOf(es + [e]);
    forall i | 0 <= i < RING_SIZE && next.ring[i].Some?
      ensures ResultKnown(es + [e], next.st.ring[i], next.ring[i].value)
    {
      RingAfter(tr.st, e, i);
      assert es[..|es|] == es;
      if Hit(tr.st, e) && i == tr.st.produce {
        assert ChipKnown(es, e.chip, tr.chips[e.chip]);
        if tr.chips[e.chip].Some? {
          BeforeExtends(es, e, tr.chips[e.chip].value);
        }
        BeforeExtends(es, e, |es|);
      } else {
        ResultKnownExtends(es, e, tr.st.ring[i], tr.ring[i].value);
      }
    }
  }

  lemma NothingKnown()
    ensures ChipsKnown([]) && RingKnown([])
  {
  }

  /** In every run the chip records and the ring entries are what their origins say. */
  lemma {:induction false} AllKnown(es: Events)
    requires AllPossible(es)
    ensures ChipsKnown(es) && RingKnown(es)
    decreases |es|
  {
    hide TraceStep, ChipKnown, ResultKnown;
    if es == [] {
      NothingKnown();
    } else {
      var n := |es| - 1;
      AllKnown(es[..n]);
      assert es[..n] + [es[n]] == es;
      ChipsKnownNext(es[..n], es[n]);
      RingKnownNext(es[..n], es[n]);
    }
  }

  lemma SpoiledByPrefix(es: Events, d: nat, n: nat)
    requires n <= |es| && Spoiled(es[..n], d)
    ensures Spoiled(es, d)
  {
    hide IsJob, Sets;
    var i :| 0 <= i < n && SpoiledAt(es[..n], d, i);
    assert es[..n][..i] == es[..i];
    assert SpoiledAt(es, d, i);
  }

  /** While unspoiled, the slot of the work dispatched at b holds the job it was built from. */
  lemma DispatchedJobKept(es: Events, b: nat, t: nat)
    requires AllPossible(es) && b < t <= |es| && es[b].Dispatch?
    requires !Spoiled(es[b + 1..], 0)
    ensures Before(es, b).cur < MM_BUF_NUM
    ensures Essence(Before(es, t).slots[Before(es, b).cur]) == Essence(JobAt(es, b))
  {
    hide TraceOf, Step, Essence, Patched, Possible;
    var k, upto := Before(es, b).cur, es[..t];
    assert Possible(es[b]);
    PossibleChip(es[b]);
    BeforeNext(es, b);
    DispatchKeepsJob(Before(es, b), es[b].chip, k);
    BeforeRuns(upto, b + 1);
    assert upto[..b + 1] == es[..b + 1] && upto[b + 1..] == es[b + 1..][..t - b - 1];
    if Spoiled(upto[b + 1..], 0) {
      SpoiledByPrefix(es[b + 1..], 0, t - b - 1);
      assert false;
    }
    RunKeepsJob(Before(es, b + 1), upto[b + 1..], k, 0);
  }

  lemma PossibleChip(e: Event)
    requires Possible(e) && e.Dispatch?
    ensures e.chip < CHIP_NUMBER
  {
  }

  lemma BeforeNext(es: Events, b: nat)
    requires AllPossible(es) && b < |es| && es[b].Dispatch?
    ensures Before(es, b + 1) == AfterDispatch(Before(es, b), es[b].chip)
    ensures Before(es, b + 1).cur == Before(es, b).cur
  {
    hide Patched;
    assert es[..b + 1][..b] == es[..b];
  }

  /** The events after time t. */
  function Since(es: Events, t: nat): Events { if t < |es| then es[t + 1..] else [] }

  /** A poll now would report the result r, whose origin is o. */
  predicate Polled(es: Events, r: Result, o: Origin)
    requires AllPossible(es)
  {
    var tr := TraceOf(es);
    tr.st.consume != tr.st.produce && tr.st.ring[tr.st.consume] == r && tr.ring[tr.st.consume] == Some(o)
  }

  /** The hash of a chip's task and a nonce counts for a job. */
  predicate Good(job: Job, nonce2: U32, nonce: U32)
    requires Sized(job) && InRange(job)
  {
    var hash := ChipHash(Task(HeaderWith(job, nonce2)), nonce);
    Load32(hash[28..]) == 0 && Bytes.LittleEndian(hash) < Bytes.LittleEndian(job.target)
  }

  lemma GoodIsDiff(job: Job, nonce2: U32, nonce: U32)
    requires Sized(job) && InRange(job)
    ensures Good(job, nonce2, nonce) <==> Check(job, nonce2, nonce) == Diff
  {
    hide ChipHash, HeaderHash, HeaderWith, Task, Bytes.LittleEndian, Load32;
    ChipAgreesWithCheck(HeaderWith(job, nonce2), nonce);
  }

  /** What a report says when its work was dispatched at b: chip, nonce2 and nonce are those of the
      work; id and pool are the work's own, overwritten by the job id and STATIC packets that come two
      SETs later, modulo three. */
  function Told(es: Events, b: nat, r: Result): Report
    requires AllPossible(es) && b < |es|
  {
    var job := JobAt(es, b);
    NonceFound(r.idx, PoolAfter(job.poolNo, Since(es, b), 0), Nonce2At(es, b), r.nonce, IdAfter(job.jobId, Since(es, b), 0))
  }

  /** The same for a chip that was never given work: slot 0 at power-on. */
  function ToldUngiven(es: Events, r: Result): Report {
    NonceFound(r.idx, PoolAfter(0, es, 0), 0, r.nonce, IdAfter([0, 0, 0, 0], es, 0))
  }

  lemma IdsSince(es: Events, b: nat)
    requires AllPossible(es) && b < |es| && es[b].Dispatch?
    ensures Before(es, b).cur < MM_BUF_NUM
    ensures TraceOf(es).st.slots[Before(es, b).cur].jobId == IdAfter(JobAt(es, b).jobId, Since(es, b), 0)
    ensures TraceOf(es).st.slots[Before(es, b).cur].poolNo == PoolAfter(JobAt(es, b).poolNo, Since(es, b), 0)
  {
    hide TraceOf, Step, Possible, IdAfter, PoolAfter, AfterDispatch, Run;
    DispatchIds(es, b);
    BeforeRuns(es, b + 1);
    CurrentIds(Before(es, b + 1), es[b + 1..]);
  }

  /** A dispatch leaves the ids in its slot alone. */
  lemma DispatchIds(es: Events, b: nat)
    requires AllPossible(es) && b < |es| && es[b].Dispatch?
    ensures var s, next := Before(es, b), Before(es, b + 1);
      && s.cur < MM_BUF_NUM && next.cur == s.cur
      && next.slots[s.cur].jobId == s.slots[s.cur].jobId && next.slots[s.cur].poolNo == s.slots[s.cur].poolNo
  {
    hide HeaderWith, CoinbaseWith;
    PossibleChip(es[b]);
    BeforeNext(es, b);
  }

  lemma IdsFromPowerOn(es: Events)
    requires AllPossible(es)
    ensures TraceOf(es).st.slots[0].jobId == IdAfter([0, 0, 0, 0], es, 0)
    ensures TraceOf(es).st.slots[0].poolNo == PoolAfter(0, es, 0)
  {
    hide TraceOf, Step, Possible, IdAfter, PoolAfter;
    InitialValid();
    TraceIsRun(es);
    IdsFollow(INITIAL, es, 0, 0);
  }

  /** Exactly what a poll reports, in every run. So the id reported is the dispatched job's own if and
      only if the fold leaves it, and likewise the pool. */
  lemma ReportExact(es: Events, r: Result, o: Origin)
    requires AllPossible(es) && Polled(es, r, o)
    ensures o.found < |es|
    ensures match o.dispatched
      case Some(b) => b < o.found && es[b] == Dispatch(r.idx) && PollReport(TraceOf(es).st) == Told(es, b, r)
      case None => PollReport(TraceOf(es).st) == ToldUngiven(es, r)
  {
    hide TraceOf, Check, Sized, InRange, Possible, IdAfter, PoolAfter;
    AllKnown(es);
    assert ResultKnown(es, r, o);
    match o.dispatched
    case Some(b) => IdsSince(es, b);
    case None => IdsFromPowerOn(es);
  }

  /** A nonce whose job was not spoiled before it was found finishes the task its chip was given to a
      hash below that job's target. */
  lemma ResultGood(es: Events, r: Result, o: Origin)
    requires AllPossible(es) && ResultKnown(es, r, o) && o.dispatched.Some?
    requires !Spoiled(Since(es[..o.found], o.dispatched.value), 0)
    ensures Good(JobAt(es, o.dispatched.value), r.nonce2, r.nonce)
  {
    hide TraceOf, Essence, Check, Good, Sized, InRange, Possible, Spoiled;
    var b, f := o.dispatched.value, es[..o.found];
    assert f[..b] == es[..b];
    assert f[..|f|] == f;
    DispatchedJobKept(f, b, |f|);
    EssenceDecides(Before(es, o.found).slots[r.mmIdx], JobAt(es, b), r.nonce2, r.nonce);
    GoodIsDiff(JobAt(es, b), r.nonce2, r.nonce);
  }

  /** An unspoiled job has kept its id and pool: the reported nonce comes with those of the very job
      its work was built from, and is good for it. */
  lemma ReportFaithful(es: Events, r: Result, o: Origin)
    requires AllPossible(es) && Polled(es, r, o) && o.dispatched.Some?
    requires !Spoiled(Since(es, o.dispatched.value), 0)
    ensures o.dispatched.value < |es| && es[o.dispatched.value] == Dispatch(r.idx)
    ensures var job, n2 := JobAt(es, o.dispatched.value), Nonce2At(es, o.dispatched.value);
      && PollReport(TraceOf(es).st) == NonceFound(r.idx, job.poolNo, n2, r.nonce, job.jobId)
      && Good(job, n2, r.nonce)
  {
    hide TraceOf, Check, Good, Sized, InRange, Possible, Spoiled, IdAfter, PoolAfter, ResultKnown, PollReport;
    AllKnown(es);
    assert ResultKnown(es, r, o);
    var b := o.dispatched.value;
    ReportExact(es, r, o);
    UnspoiledIds(Since(es, b), 0, JobAt(es, b).jobId, JobAt(es, b).poolNo);
    NotYetSpoiled(es, b, o.found);
    ResultNonce2(es, r, o);
    ResultGood(es, r, o);
  }

  lemma ResultNonce2(es: Events, r: Result, o: Origin)
    requires AllPossible(es) && ResultKnown(es, r, o) && o.dispatched.Some?
    ensures o.dispatched.value < |es| && r.nonce2 == Nonce2At(es, o.dispatched.value)
  {
    hide TraceOf, Check;
  }

  lemma NotYetSpoiled(es: Events, b: nat, f: nat)
    requires b < f <= |es| && !Spoiled(Since(es, b), 0)
    ensures !Spoiled(Since(es[..f], b), 0)
  {
    hide Spoiled;
    assert Since(es, b)[..f - b - 1] == Since(es[..f], b);
    if Spoiled(Since(es[..f], b), 0) {
      SpoiledByPrefix(Since(es, b), 0, f - b - 1);
      assert false;
    }
  }

  lemma JobKinds(e: Event)
    ensures IsKind(e, P_JOB_ID) || IsKind(e, P_STATIC) ==> IsJob(e)
  {
    hide Accepted;
  }

  /** Unspoiled events leave id and pool alone. */
  lemma {:induction false} UnspoiledIds(es: Events, d: nat, id: seq<Byte>, pool: U32)
    requires !Spoiled(es, d)
    ensures IdAfter(id, es, d) == id && PoolAfter(pool, es, d) == pool
    decreases |es|
  {
    hide Spoiled, IsKind, IsJob, IsSet;
    if es != [] {
      SpoiledNext(es, d);
      assert es[..1][1..] == [];
      assert Sets(es[..1]) == if IsSet(es[0]) then 1 else 0;
      JobKinds(es[0]);
      UnspoiledIds(es[1..], d + Sets(es[..1]), id, pool);
    }
  }
}
