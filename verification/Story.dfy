/** One run from power-on, followed event by event: a job is uploaded, its nonce is found, a second chip
    fails in the same pass, and the nonce is reported with the id of a job that came later. */
module Story {
  import opened Words
  import opened Options
  import opened WorkSpec
  import opened Packets
  import opened ManagerSpec
  import opened Transcript
  import opened KnownJob
  import opened JobSafety
  import Bytes
  import Sha256
  import P = Provenance
  import A = Accounting
  import Upload

  // The events

  /** The numbers of the job: all zero but the merkle offset. */
  function StaticData(): Payload {
    seq(12, _ => 0) + Store32(96) + seq(16, _ => 0)
  }

  function Nothing(): Payload { seq(32, _ => 0) }

  function IdData(id: seq<Byte>): Payload
    requires |id| == 4
  {
    id + seq(28, _ => 0)
  }

  function Set(): Event { Packet(Made(P_SET, 1, Nothing())) }

  function Uploads(): Events {
    hide StaticData, FirstChunk, NextChunk, LastChunk, Easiest, Made;
    [Packet(Made(P_STATIC, 1, StaticData())), Packet(Made(P_HEADER, 1, FirstChunk())), Packet(Made(P_HEADER, 2, NextChunk())),
     Packet(Made(P_HEADER, 3, LastChunk())), Packet(Made(P_TARGET, 1, Easiest()))]
  }

  function Findings(): Events {
    [Set(), Dispatch(0), PassStart, Collect(0, NONCE), Collect(1, 0)]
  }

  function Later(id: seq<Byte>): Events
    requires |id| == 4
  {
    [Set(), Set(), Packet(Made(P_JOB_ID, 1, IdData(id))), Packet(Made(P_POLLING, 1, Nothing()))]
  }

  // The states

  /** A slot after the upload. */
  function Filled(j: Job): Job
    requires Sized(j)
  {
    j.(merkleOffset := 96, target := Easiest(),
       header := Bytes.Splice(Bytes.Splice(Bytes.Splice(j.header, 0, FirstChunk()), 32, NextChunk()), 64, LastChunk()))
  }

  /** A slot as at power-on. */
  predicate Blank(j: Job) {
    && Sized(j) && InRange(j)
    && j.coinbaseLen == 0 && j.nonce2Offset == 0 && j.nonce2Size == 0 && j.nmerkles == 0
    && j.diff == 0 && j.poolNo == 0 && j.jobId == [0, 0, 0, 0] && j.nonce2 == 0 && j.target == seq(32, _ => 0)
  }

  lemma FilledKnown(j: Job)
    requires Blank(j)
    ensures Known(Filled(j)) && Filled(j).jobId == [0, 0, 0, 0] && Filled(j).nonce2 == 0 && Filled(j).poolNo == 0
  {
    hide FirstChunk, NextChunk, LastChunk, Easiest;
    var h := Filled(j).header;
    assert h[..32] == FirstChunk() && h[32..64] == NextChunk() && h[64..96] == LastChunk();
  }

  /** A slot whose work was generated is still that of the known job. */
  lemma PatchedKnown(j: Job, n: U32)
    requires Known(j)
    ensures Known(Patched(j, n)) && Patched(j, n).jobId == j.jobId && Patched(j, n).poolNo == j.poolNo
  {
    hide FirstChunk, NextChunk, LastChunk, Easiest, MerkleRoot;
    var h := Patched(j, n).header;
    assert h[..96] == j.header[..96];
    assert h[..32] == h[..96][..32] && h[32..64] == h[..96][32..64] && h[64..96] == h[..96][64..];
    assert j.header[..32] == j.header[..96][..32] && j.header[32..64] == j.header[..96][32..64];
    assert j.header[64..96] == j.header[..96][64..];
  }

  // The job packets one by one

  lemma Fill(s: State, kind: Byte, idx: Byte, data: Payload)
    requires Consistent(s) && IsJobKind(kind) && PacketInRange(Made(kind, idx, data))
    ensures var e := Packet(Made(kind, idx, data));
      && Possible(e) && !IsSet(e) && Consistent(Step(s, e)) && RepliesTo(s, e) == []
      && Step(s, e) == s.(slots := s.slots[WriteIdx(s) := WithPacket(s.slots[WriteIdx(s)], Made(kind, idx, data))])
  {
    hide Accepted, Made, PacketInRange, WithPacket, Sized, InRange;
    MadeAccepted(kind, idx, data);
    PacketValid(s, Made(kind, idx, data));
  }

  lemma StaticFields()
    ensures var d := StaticData();
      && Field(d, 0) == 0 && Field(d, 4) == 0 && Field(d, 8) == 0 && Field(d, 12) == 96
      && Field(d, 16) == 0 && Field(d, 20) == 0 && Field(d, 24) == 0
  {
    hide Store32, Load32;
    var d := StaticData();
    var zero: seq<Byte> := [0, 0, 0, 0];
    Bytes.ExtremeWords();
    LoadStore(96);
    assert d[0..4] == zero && d[4..8] == zero && d[8..12] == zero && d[12..16] == Store32(96);
    assert d[16..20] == zero && d[20..24] == zero && d[24..28] == zero;
  }

  lemma SetFields()
    ensures Field(Nothing(), 8) == 0 && Field(Nothing(), 12) == 0
  {
    hide Load32;
    Bytes.ExtremeWords();
    assert Nothing()[8..12] == [0, 0, 0, 0] && Nothing()[12..16] == [0, 0, 0, 0];
  }

  lemma StaticFits(j: Job)
    requires Blank(j)
    ensures PacketInRange(Made(P_STATIC, 1, StaticData()))
    ensures WithPacket(j, Made(P_STATIC, 1, StaticData())) == j.(merkleOffset := 96)
  {
    hide Accepted, Made, Field;
    MadeAccepted(P_STATIC, 1, StaticData());
    StaticFields();
  }

  lemma HeaderFits(j: Job, idx: Byte, data: Payload)
    requires Sized(j) && InRange(j) && 1 <= idx <= 3
    ensures PacketInRange(Made(P_HEADER, idx, data))
    ensures WithPacket(j, Made(P_HEADER, idx, data)) == j.(header := Bytes.Splice(j.header, 32 * (idx as int - 1), data))
  {
    hide Accepted, Made, Field, Bytes.Splice;
    MadeAccepted(P_HEADER, idx, data);
  }

  lemma TargetFits(j: Job, data: Payload)
    requires Sized(j) && InRange(j)
    ensures PacketInRange(Made(P_TARGET, 1, data)) && WithPacket(j, Made(P_TARGET, 1, data)) == j.(target := data)
  {
    hide Accepted, Made, Field;
    MadeAccepted(P_TARGET, 1, data);
  }

  lemma IdFits(j: Job, id: seq<Byte>)
    requires Sized(j) && InRange(j) && |id| == 4
    ensures PacketInRange(Made(P_JOB_ID, 1, IdData(id))) && WithPacket(j, Made(P_JOB_ID, 1, IdData(id))) == j.(jobId := id)
  {
    hide Accepted, Made, Field;
    MadeAccepted(P_JOB_ID, 1, IdData(id));
    assert IdData(id)[..4] == id;
  }

  // The states passed through

  /** At power-on. */
  predicate Fresh(s: State) {
    && Consistent(s) && s.cur == 0 && Blank(s.slots[0]) && Blank(s.slots[1])
    && Unused(s)
  }

  predicate Unused(s: State)
    requires Consistent(s)
  {
    s.chips[1] == Chip(0, 0) && s.produce == 0 && s.consume == 0 && !s.found && s.localWork == 0 && s.hwWork == 0
    && s.totalNonce == 0
  }

  predicate Mine(j: Job) { Known(j) && j.jobId == [0, 0, 0, 0] && j.poolNo == 0 }

  /** The known job is in slot 1; slot `cur` is current. */
  predicate Loaded(s: State, cur: nat) {
    Consistent(s) && s.cur == cur && Blank(s.slots[0]) && Mine(s.slots[1]) && s.slots[1].nonce2 == 0 && Unused(s)
  }

  /** Its work was given to chip 0. */
  predicate Given(s: State) {
    && Consistent(s) && s.cur == 1 && Blank(s.slots[0]) && Mine(s.slots[1])
    && s.chips[0] == Chip(1, 1) && Unused(s)
  }

  /** Its nonce was found; `work` chips were collected. */
  predicate Found(s: State, cur: nat, work: nat, id: seq<Byte>) {
    && Consistent(s) && s.cur == cur && s.slots[1].jobId == id && s.slots[1].poolNo == 0
    && s.produce == 1 && s.consume == 0 && s.ring[0] == Result(0, 1, NONCE, 1)
    && s.found && s.localWork == work && s.hwWork == 0
  }

  // One event more

  /** A run that starts with an event. */
  lemma Cons(s: State, e: Event, rest: Events)
    requires Consistent(s) && Possible(e) && AllPossible(rest)
    ensures Consistent(Step(s, e)) && AllPossible([e] + rest)
    ensures Run(s, [e] + rest) == Run(Step(s, e), rest)
    ensures Reports(s, [e] + rest) == RepliesTo(s, e) + Reports(Step(s, e), rest)
  {
    hide Step, Possible, Consistent, RepliesTo;
    StepValid(s, e);
    assert ([e] + rest)[1..] == rest;
  }

  /** A silent event in front. */
  lemma Silent(s: State, e: Event, rest: Events, t: State)
    requires Consistent(s) && Possible(e) && AllPossible(rest) && t == Step(s, e) && RepliesTo(s, e) == []
    ensures Consistent(t) && AllPossible([e] + rest)
    ensures Run(s, [e] + rest) == Run(t, rest) && Reports(s, [e] + rest) == Reports(t, rest)
  {
    hide Step, Possible, Consistent, RepliesTo, Run, Reports;
    Cons(s, e, rest);
    assert [] + Reports(t, rest) == Reports(t, rest);
  }

  lemma NoMore(s: State)
    requires Consistent(s)
    ensures AllPossible([]) && Run(s, []) == s && Reports(s, []) == []
  {
  }

  // The upload

  function Slot1(s: State): (j: Job)
    requires Consistent(s)
    ensures Sized(j) && InRange(j)
  {
    s.slots[1]
  }

  /** Job packets fill slot 1 and leave everything else alone. */
  lemma FillOne(s: State, kind: Byte, idx: Byte, data: Payload, j: Job) returns (t: State)
    requires Consistent(s) && s.cur == 0 && IsJobKind(kind) && PacketInRange(Made(kind, idx, data))
    requires j == WithPacket(s.slots[1], Made(kind, idx, data))
    ensures var e := Packet(Made(kind, idx, data)); Possible(e) && t == Step(s, e) && RepliesTo(s, e) == []
    ensures Consistent(t) && t == s.(slots := t.slots) && t.slots[0] == s.slots[0] && Slot1(t) == j
  {
    hide Made, PacketInRange, WithPacket, Sized, InRange, Step, Possible, RepliesTo;
    Fill(s, kind, idx, data);
    t := Step(s, Packet(Made(kind, idx, data)));
  }

  lemma UploadRuns(s: State)
    requires Fresh(s)
    ensures AllPossible(Uploads()) && Loaded(Run(s, Uploads()), 0) && Reports(s, Uploads()) == []
  {
    hide Made, Run, Reports, RepliesTo, FirstChunk, NextChunk, LastChunk, Easiest, Sized, InRange, PacketInRange, WithPacket, Possible, Step,
      Consistent, Bytes.Splice, AllPossible, StaticData;
    var j := Slot1(s);
    StaticFits(j);
    var j1 := j.(merkleOffset := 96);
    var s1 := FillOne(s, P_STATIC, 1, StaticData(), j1);
    var j2, s2 := FillHeader(s1, 1, FirstChunk());
    var j3, s3 := FillHeader(s2, 2, NextChunk());
    var j4, s4 := FillHeader(s3, 3, LastChunk());
    TargetFits(j4, Easiest());
    var j5 := j4.(target := Easiest());
    var s5 := FillOne(s4, P_TARGET, 1, Easiest(), j5);
    AllFilled(j, j2, j3, j4, j5);
    var e0, e1, e2, e3, e4 := Uploads()[0], Uploads()[1], Uploads()[2], Uploads()[3], Uploads()[4];
    NoMore(s5);
    Silent(s4, e4, [], s5);
    Silent(s3, e3, [e4] + [], s4);
    Silent(s2, e2, [e3] + ([e4] + []), s3);
    Silent(s1, e1, [e2] + ([e3] + ([e4] + [])), s2);
    Silent(s, e0, [e1] + ([e2] + ([e3] + ([e4] + []))), s1);
    assert Uploads() == [e0] + ([e1] + ([e2] + ([e3] + ([e4] + []))));
    FilledKnown(j);
    UploadDone(s, s5);
  }

  lemma FillHeader(s: State, idx: Byte, data: Payload) returns (j: Job, t: State)
    requires Consistent(s) && s.cur == 0 && 1 <= idx <= 3
    ensures var e := Packet(Made(P_HEADER, idx, data)); Possible(e) && t == Step(s, e) && RepliesTo(s, e) == []
    ensures j == Slot1(s).(header := Bytes.Splice(Slot1(s).header, 32 * (idx as int - 1), data))
    ensures Consistent(t) && t == s.(slots := t.slots) && t.slots[0] == s.slots[0] && Slot1(t) == j
  {
    hide Made, PacketInRange, WithPacket, Sized, InRange, Step, Possible, RepliesTo;
    HeaderFits(Slot1(s), idx, data);
    j := WithPacket(Slot1(s), Made(P_HEADER, idx, data));
    t := FillOne(s, P_HEADER, idx, data, j);
  }

  lemma AllFilled(j: Job, j2: Job, j3: Job, j4: Job, j5: Job)
    requires Sized(j) && Sized(j2) && Sized(j3)
    requires j2 == j.(merkleOffset := 96, header := Bytes.Splice(j.header, 0, FirstChunk()))
    requires j3 == j2.(header := Bytes.Splice(j2.header, 32, NextChunk()))
    requires j4 == j3.(header := Bytes.Splice(j3.header, 64, LastChunk())) && j5 == j4.(target := Easiest())
    ensures j5 == Filled(j)
  {
    hide FirstChunk, NextChunk, LastChunk, Easiest, Bytes.Splice;
  }

  lemma UploadDone(s: State, t: State)
    requires Fresh(s) && Consistent(t) && t == s.(slots := t.slots)
    requires t.slots[0] == s.slots[0] && Slot1(t) == Filled(Slot1(s))
    ensures Loaded(t, 0)
  {
    hide Filled, Known;
    FilledKnown(s.slots[1]);
  }

  // The findings

  lemma TakeSet(s: State)
    requires Consistent(s)
    ensures Possible(Set()) && IsSet(Set()) && RepliesTo(s, Set()) == [] && Consistent(Step(s, Set()))
    ensures var w := WriteIdx(s);
      Step(s, Set()) == s.(nonce2Offset := 0, nonce2Range := 0, slots := s.slots[w := s.slots[w].(nonce2 := 0)], cur := w, newStratum := true)
  {
    hide Accepted, Made, Sized, InRange;
    MadeAccepted(P_SET, 1, Nothing());
    SetFields();
    PacketValid(s, Made(P_SET, 1, Nothing()));
  }

  lemma SetLoaded(s: State)
    requires Loaded(s, 0)
    ensures Possible(Set()) && RepliesTo(s, Set()) == [] && Loaded(Step(s, Set()), 1)
  {
    hide Known, RepliesTo, Step, Set, Possible;
    TakeSet(s);
  }

  lemma GiveWork(s: State)
    requires Loaded(s, 1)
    ensures Possible(Dispatch(0)) && RepliesTo(s, Dispatch(0)) == [] && Given(Step(s, Dispatch(0)))
  {
    hide Known, Patched;
    DispatchValid(s, 0);
    var j := s.slots[1];
    CountedKnown(j);
    MineKept(j.(nonce2 := 1), 1);
  }

  /** Generating work keeps a slot the known job's. */
  lemma MineKept(j: Job, n: U32)
    requires Mine(j)
    ensures Sized(j) && InRange(j) && Mine(Patched(j, n))
  {
    hide FirstChunk, NextChunk, LastChunk, Easiest, Patched;
    PatchedKnown(j, n);
  }

  lemma CountedKnown(j: Job)
    requires Mine(j)
    ensures Mine(j.(nonce2 := 1))
  {
    hide FirstChunk, NextChunk, LastChunk, Easiest;
  }

  lemma StartPass(s: State)
    requires Given(s)
    ensures Possible(PassStart) && RepliesTo(s, PassStart) == [] && Given(Step(s, PassStart))
  {
    hide Known, Blank;
    StepValid(s, PassStart);
  }

  /** The known nonce is found at the first try. */
  lemma FirstTry(j: Job, nonce2: U32)
    requires Known(j)
    ensures FirstSuccess(j, nonce2, NONCE, 0) == Some(NONCE)
  {
    hide Known, Check;
    KnownNonce(j, nonce2);
    assert Candidate(NONCE, 0) == NONCE;
  }

  lemma CollectGood(s: State)
    requires Given(s)
    ensures Possible(Collect(0, NONCE)) && RepliesTo(s, Collect(0, NONCE)) == [] && P.Hit(s, Collect(0, NONCE))
    ensures Found(Step(s, Collect(0, NONCE)), 1, 1, [0, 0, 0, 0])
    ensures Step(s, Collect(0, NONCE)).chips[1] == Chip(0, 0) && Blank(Step(s, Collect(0, NONCE)).slots[0])
  {
    hide Known, Blank, Patched, FirstSuccess;
    CollectValid(s, 0, NONCE);
    MineKept(s.slots[1], 1);
    FirstTry(s.slots[1], 1);
  }

  /** With a zero target every try fails. */
  lemma {:induction false} AllTriesFail(j: Job, nonce2: U32, answer: U32, i: nat)
    requires Blank(j) && i <= 9
    ensures FirstSuccess(j, nonce2, answer, i) == None
    decreases 9 - i
  {
    hide Check;
    if i < 9 {
      NeverGood(j, nonce2, Candidate(answer, i));
      AllTriesFail(j, nonce2, answer, i + 1);
    }
  }

  lemma CollectBad(s: State)
    requires Found(s, 1, 1, [0, 0, 0, 0]) && s.chips[1] == Chip(0, 0) && Blank(s.slots[0])
    ensures Possible(Collect(1, 0)) && RepliesTo(s, Collect(1, 0)) == []
    ensures !P.Hit(s, Collect(1, 0)) && A.Uncounted(s, Collect(1, 0))
    ensures Found(Step(s, Collect(1, 0)), 1, 2, [0, 0, 0, 0])
  {
    hide Blank, Patched, FirstSuccess;
    CollectValid(s, 1, 0);
    AllTriesFail(s.slots[0], 0, 0, 0);
  }

  /** One event, answered with nothing. */
  predicate Goes(s: State, e: Event, t: State) {
    Consistent(s) && Possible(e) && t == Step(s, e) && RepliesTo(s, e) == []
  }

  ghost predicate Hits(s: State, e: Event) { Consistent(s) && Possible(e) && P.Hit(s, e) }

  /** The states the findings pass through. */
  lemma FindingStates(s: State) returns (s1: State, s2: State, s3: State, s4: State, s5: State)
    requires Loaded(s, 0)
    ensures Goes(s, Set(), s1) && Goes(s1, Dispatch(0), s2) && Goes(s2, PassStart, s3)
    ensures Goes(s3, Collect(0, NONCE), s4) && Goes(s4, Collect(1, 0), s5) && Consistent(s5)
    ensures Hits(s3, Collect(0, NONCE)) && !Hits(s4, Collect(1, 0)) && s4.found && Found(s5, 1, 2, [0, 0, 0, 0])
  {
    hide Set, Run, Reports, RepliesTo, Possible, Step, Consistent, AllPossible, Loaded, Given, Found, P.Hit, Blank;
    LoadedConsistent(s, 0);
    SetLoaded(s);
    s1 := Step(s, Set());
    LoadedConsistent(s1, 1);
    GiveWork(s1);
    s2 := Step(s1, Dispatch(0));
    GivenConsistent(s2);
    StartPass(s2);
    s3 := Step(s2, PassStart);
    GivenConsistent(s3);
    CollectGood(s3);
    s4 := Step(s3, Collect(0, NONCE));
    FoundConsistent(s4, 1, 1, [0, 0, 0, 0]);
    FoundIsFound(s4, 1, 1, [0, 0, 0, 0]);
    CollectBad(s4);
    s5 := Step(s4, Collect(1, 0));
    FoundConsistent(s5, 1, 2, [0, 0, 0, 0]);
  }

  lemma FindingsRun(s: State, es: Events)
    requires Loaded(s, 0) && es == Findings()
    ensures Consistent(s) && AllPossible(es) && Found(Run(s, es), 1, 2, [0, 0, 0, 0]) && Reports(s, es) == []
  {
    hide Set, Run, Reports, RepliesTo, Possible, Step, Consistent, AllPossible, Loaded, Given, Found, P.Hit, Hits, Blank;
    var e0, e1, e2, e3, e4 := Set(), Dispatch(0), PassStart, Collect(0, NONCE), Collect(1, 0);
    var s1, s2, s3, s4, s5 := FindingStates(s);
    NoMore(s5);
    Silent(s4, e4, [], s5);
    Silent(s3, e3, [e4] + [], s4);
    Silent(s2, e2, [e3] + ([e4] + []), s3);
    Silent(s1, e1, [e2] + ([e3] + ([e4] + [])), s2);
    Silent(s, e0, [e1] + ([e2] + ([e3] + ([e4] + []))), s1);
    assert es == [e0] + ([e1] + ([e2] + ([e3] + ([e4] + []))));
  }

  lemma LoadedConsistent(s: State, cur: nat)
    requires Loaded(s, cur)
    ensures Consistent(s)
  {
  }

  lemma GivenConsistent(s: State)
    requires Given(s)
    ensures Consistent(s)
  {
  }

  lemma FoundConsistent(s: State, cur: nat, work: nat, id: seq<Byte>)
    requires Found(s, cur, work, id)
    ensures Consistent(s)
  {
  }

  /** The failure of the second chip is counted nowhere. */
  lemma FindingsCount(s: State, es: Events)
    requires Loaded(s, 0) && es == Findings()
    ensures Consistent(s) && AllPossible(es) && A.Count(s, es) == A.Totals(2, 1, 0, 0, 0, 0)
  {
    hide Set, Run, Reports, RepliesTo, Possible, Step, Consistent, AllPossible, Loaded, Given, Found, P.Hit, Blank, A.Count, A.Uncounted, A.HwError, A.IsEmptyPoll;
    var e0, e1, e2, e3, e4 := Set(), Dispatch(0), PassStart, Collect(0, NONCE), Collect(1, 0);
    var s1, s2, s3, s4, s5 := FindingStates(s);
    SetCounts(s);
    Quiet(s1, e1);
    Quiet(s2, e2);
    Quiet(s3, e3);
    Quiet(s4, e4);
    CountNothing(s5);
    CountCons(s4, e4, []);
    CountCons(s3, e3, [e4] + []);
    CountCons(s2, e2, [e3] + ([e4] + []));
    CountCons(s1, e1, [e2] + ([e3] + ([e4] + [])));
    CountCons(s, e0, [e1] + ([e2] + ([e3] + ([e4] + []))));
    assert es == [e0] + ([e1] + ([e2] + ([e3] + ([e4] + []))));
  }

  lemma SetCounts(s: State)
    requires Consistent(s)
    ensures Possible(Set()) && !Set().Collect?
    ensures !A.HwError(s, Set()) && !A.IsEmptyPoll(s, Set()) && !P.Hit(s, Set())
  {
    hide Made, Accepted;
    MadeAccepted(P_SET, 1, Nothing());
  }

  /** An event that is neither a packet nor a collection counts nothing, and a collection after a hit
      is no hardware error. */
  lemma Quiet(s: State, e: Event)
    requires Consistent(s) && Possible(e) && !e.Packet?
    ensures !A.IsEmptyPoll(s, e)
    ensures !e.Collect? ==> !P.Hit(s, e)
    ensures !e.Collect? || P.Hit(s, e) || s.found ==> !A.HwError(s, e)
  {
    hide FirstSuccess;
  }

  lemma FoundIsFound(s: State, cur: nat, work: nat, id: seq<Byte>)
    requires Found(s, cur, work, id)
    ensures s.found
  {
  }

  lemma CountNothing(s: State)
    requires Consistent(s)
    ensures AllPossible([]) && A.Count(s, []) == A.Totals(0, 0, 0, 0, 0, 0)
  {
  }

  /** One more event in the totals; here none is an empty poll, and hardware errors are not met. */
  lemma CountCons(s: State, e: Event, rest: Events)
    requires Consistent(s) && Possible(e) && AllPossible(rest)
    requires !A.HwError(s, e) && !A.IsEmptyPoll(s, e)
    ensures Consistent(Step(s, e)) && AllPossible([e] + rest)
    ensures var t, c := A.Count(Step(s, e), rest), A.Count(s, [e] + rest);
      c == t.(ready := t.ready + (if e.Collect? then 1 else 0), valid := t.valid + (if P.Hit(s, e) then 1 else 0))
  {
    hide Step, Possible, Consistent, P.Hit, A.HwError, A.IsEmptyPoll, A.LocalIn, A.HwIn, A.PollReplies;
    StepValid(s, e);
    A.PollTells(s, e);
    assert ([e] + rest)[1..] == rest;
  }

  // The report

  lemma SetFound(s: State, cur: nat)
    requires Found(s, cur, 2, [0, 0, 0, 0])
    ensures Possible(Set()) && RepliesTo(s, Set()) == [] && Consistent(s)
    ensures Found(Step(s, Set()), (cur + 1) % 3, 2, [0, 0, 0, 0])
  {
    hide RepliesTo, Step, Set, Possible, Found, Consistent;
    FoundConsistent(s, cur, 2, [0, 0, 0, 0]);
    TakeSet(s);
    SetRing(s, Step(s, Set()), cur);
  }

  lemma SetRing(s: State, t: State, cur: nat)
    requires Consistent(s) && Consistent(t) && Found(s, cur, 2, [0, 0, 0, 0])
    requires var w := WriteIdx(s);
      t == s.(nonce2Offset := 0, nonce2Range := 0, slots := s.slots[w := s.slots[w].(nonce2 := 0)], cur := w, newStratum := true)
    ensures Found(t, (cur + 1) % 3, 2, [0, 0, 0, 0])
  {
    hide Sized, InRange;
  }

  function NewId(id: seq<Byte>): Event
    requires |id| == 4
  {
    Packet(Made(P_JOB_ID, 1, IdData(id)))
  }

  lemma TakeId(s: State, id: seq<Byte>)
    requires |id| == 4 && Found(s, 0, 2, [0, 0, 0, 0])
    ensures Possible(NewId(id)) && RepliesTo(s, NewId(id)) == [] && Found(Step(s, NewId(id)), 0, 2, id)
  {
    hide Made, PacketInRange, WithPacket, Sized, InRange, Step, Possible, RepliesTo;
    IdFits(Slot1(s), id);
    var t := FillOne(s, P_JOB_ID, 1, IdData(id), Slot1(s).(jobId := id));
  }

  function Poll(): Event { Packet(Made(P_POLLING, 1, Nothing())) }

  lemma TakePoll(s: State, id: seq<Byte>)
    requires Found(s, 0, 2, id)
    ensures Possible(Poll()) && RepliesTo(s, Poll()) == [NonceFound(0, 0, 1, NONCE, id)]
  {
    hide Accepted, Made, Sized, InRange;
    MadeAccepted(P_POLLING, 1, Nothing());
  }

  lemma LaterRuns(s: State, id: seq<Byte>)
    requires |id| == 4 && Found(s, 1, 2, [0, 0, 0, 0])
    ensures Consistent(s) && AllPossible(Later(id)) && Reports(s, Later(id)) == [NonceFound(0, 0, 1, NONCE, id)]
  {
    hide Set, NewId, Poll, Run, Reports, RepliesTo, Possible, Step, Consistent, AllPossible, Found;
    var e0, e2, e3 := Set(), NewId(id), Poll();
    FoundConsistent(s, 1, 2, [0, 0, 0, 0]);
    SetFound(s, 1);
    var s1 := Step(s, e0);
    FoundConsistent(s1, 2, 2, [0, 0, 0, 0]);
    SetFound(s1, 2);
    var s2 := Step(s1, e0);
    FoundConsistent(s2, 0, 2, [0, 0, 0, 0]);
    TakeId(s2, id);
    var s3 := Step(s2, e2);
    FoundConsistent(s3, 0, 2, id);
    TakePoll(s3, id);
    StepValid(s3, e3);
    NoMore(Step(s3, e3));
    Cons(s3, e3, []);
    assert [NonceFound(0, 0, 1, NONCE, id)] + [] == [NonceFound(0, 0, 1, NONCE, id)];
    Silent(s2, e2, [e3] + [], s3);
    Silent(s1, e0, [e2] + ([e3] + []), s2);
    Silent(s, e0, [e0] + ([e2] + ([e3] + [])), s1);
    LaterIs(id);
  }

  lemma LaterIs(id: seq<Byte>)
    requires |id| == 4
    ensures Later(id) == [Set()] + ([Set()] + ([NewId(id)] + ([Poll()] + [])))
  {
    hide Made, Nothing, IdData;
  }

  lemma PowerOnFresh()
    ensures Fresh(INITIAL)
  {
    InitialValid();
  }

  function Whole(id: seq<Byte>): Events
    requires |id| == 4
  {
    Uploads() + Findings() + Later(id)
  }

  /** At time b work for a job with that id, for which the known nonce is good, was given to chip 0. */
  ghost predicate DispatchedFor(es: Events, b: nat, id: seq<Byte>) {
    && AllPossible(es) && b < |es| && es[b] == Dispatch(0)
    && P.JobAt(es, b).jobId == id && P.Nonce2At(es, b) == 1 && P.Good(P.JobAt(es, b), 1, NONCE)
  }

  /** The reports of a run. */
  ghost predicate Tells(s: State, es: Events, reports: seq<Report>) {
    Consistent(s) && AllPossible(es) && Reports(s, es) == reports
  }

  /** From power-on: the nonce of a job with id 0 is reported with any id whatever, that of a job packet
      which came two SETs after the work was dispatched. */
  lemma WrongIdReported(id: seq<Byte>) returns (es: Events, b: nat)
    requires |id| == 4
    ensures Tells(INITIAL, es, [NonceFound(0, 0, 1, NONCE, id)]) && DispatchedFor(es, b, [0, 0, 0, 0])
  {
    hide Run, Reports, Possible, Step, Consistent, AllPossible, Found, Loaded, Uploads, Findings, Later, Fresh, DispatchedFor, INITIAL;
    PowerOnFresh();
    FreshConsistent(INITIAL);
    UploadRuns(INITIAL);
    var s := Run(INITIAL, Uploads());
    LoadedConsistent(s, 0);
    FindingsRun(s, Findings());
    var t := Run(s, Findings());
    FoundConsistent(t, 1, 2, [0, 0, 0, 0]);
    LaterRuns(t, id);
    ReportsAppend(INITIAL, Uploads(), Findings());
    RunAppend(INITIAL, Uploads(), Findings());
    ReportsAppend(INITIAL, Uploads() + Findings(), Later(id));
    assert [] + [] + Reports(t, Later(id)) == Reports(t, Later(id));
    JobDispatched(id);
    es, b := Whole(id), 6;
  }

  lemma FreshConsistent(s: State)
    requires Fresh(s)
    ensures Consistent(s)
  {
  }

  lemma JobDispatched(id: seq<Byte>)
    requires |id| == 4
    ensures DispatchedFor(Whole(id), 6, [0, 0, 0, 0])
  {
    hide Run, Reports, Possible, Step, Consistent, AllPossible, Loaded, Fresh, INITIAL, Set, Found, Uploads, Later, P.TraceOf, DispatchedFor;
    WholePossible(id);
    var front := Uploads() + [Set()];
    FrontIs(id);
    FrontLoaded();
    P.TraceIsRun(front);
    FromFront(Whole(id), 6);
  }

  lemma FrontIs(id: seq<Byte>)
    requires |id| == 4
    ensures |Whole(id)| == 14
    ensures Whole(id)[..6] == Uploads() + [Set()] && Whole(id)[6] == Dispatch(0)
  {
    hide Uploads, Findings, Later;
    UploadsAre();
    FindingsAre();
    LaterAre(id);
    Sixth(Uploads(), Findings(), Later(id), Set(), Dispatch(0));
  }

  lemma UploadsAre()
    ensures |Uploads()| == 5
  {
    hide Made;
  }

  lemma FindingsAre()
    ensures |Findings()| == 5 && Findings()[0] == Set() && Findings()[1] == Dispatch(0)
  {
    hide Set;
  }

  lemma LaterAre(id: seq<Byte>)
    requires |id| == 4
    ensures |Later(id)| == 4
  {
    hide Made, Set;
  }

  lemma Sixth(u: Events, f: Events, l: Events, a: Event, b: Event)
    requires |u| == |f| == 5 && f[0] == a && f[1] == b
    ensures (u + f + l)[..6] == u + [a] && (u + f + l)[6] == b
  {
  }

  lemma WholePossible(id: seq<Byte>)
    requires |id| == 4
    ensures Consistent(INITIAL) && AllPossible(Whole(id))
  {
    hide Run, Reports, Possible, Step, Consistent, AllPossible, Found, Loaded, Uploads, Findings, Later, Fresh, INITIAL;
    PowerOnFresh();
    FreshConsistent(INITIAL);
    UploadRuns(INITIAL);
    var s := Run(INITIAL, Uploads());
    LoadedConsistent(s, 0);
    FindingsRun(s, Findings());
    var t := Run(s, Findings());
    FoundConsistent(t, 1, 2, [0, 0, 0, 0]);
    LaterRuns(t, id);
    RunAppend(INITIAL, Uploads(), Findings());
    RunAppend(INITIAL, Uploads() + Findings(), Later(id));
  }

  /** Before the first dispatch the known job is current. */
  lemma FrontLoaded()
    ensures Consistent(INITIAL) && AllPossible(Uploads() + [Set()]) && Loaded(Run(INITIAL, Uploads() + [Set()]), 1)
  {
    hide Run, Reports, Possible, Step, Consistent, AllPossible, Loaded, Uploads, Fresh, INITIAL, Set;
    PowerOnFresh();
    FreshConsistent(INITIAL);
    UploadRuns(INITIAL);
    var s := Run(INITIAL, Uploads());
    LoadedConsistent(s, 0);
    SetLoaded(s);
    OneEvent(s, Set());
    RunAppend(INITIAL, Uploads(), [Set()]);
  }

  lemma FromFront(es: Events, b: nat)
    requires AllPossible(es) && b < |es| && es[b] == Dispatch(0) && Loaded(P.TraceOf(es[..b]).st, 1)
    ensures DispatchedFor(es, b, [0, 0, 0, 0])
  {
    hide P.TraceOf, Possible, P.Good, Known;
    DispatchedJob(P.TraceOf(es[..b]).st);
  }

  lemma DispatchedJob(s: State)
    requires Loaded(s, 1)
    ensures s.slots[s.cur].jobId == [0, 0, 0, 0] && s.slots[s.cur].nonce2 == 0 && P.Good(s.slots[s.cur], 1, NONCE)
  {
    hide P.Good, Known, Check;
    KnownNonce(s.slots[1], 1);
    P.GoodIsDiff(s.slots[1], 1, NONCE);
  }

  /** From power-on: two chips were ready, one result was valid and no error was counted. */
  lemma LocalWorkUncounted()
    ensures Consistent(INITIAL) && AllPossible(Uploads() + Findings())
    ensures Run(INITIAL, Uploads() + Findings()).localWork == 2 && Run(INITIAL, Uploads() + Findings()).totalNonce == 1
    ensures Run(INITIAL, Uploads() + Findings()).hwWork == 0
  {
    hide Run, Reports, Possible, Step, Consistent, AllPossible, Found, Loaded, Uploads, Findings, Fresh, INITIAL, A.Count;
    PowerOnFresh();
    FreshConsistent(INITIAL);
    UploadRuns(INITIAL);
    var s := Run(INITIAL, Uploads());
    LoadedConsistent(s, 0);
    FindingsRun(s, Findings());
    FindingsCount(s, Findings());
    RunAppend(INITIAL, Uploads(), Findings());
    A.CountersAddUp(s, Findings());
    LoadedCounts(s, 0);
  }

  lemma LoadedCounts(s: State, cur: nat)
    requires Loaded(s, cur)
    ensures s.localWork == 0 && s.hwWork == 0 && s.totalNonce == 0
  {
  }
}
