/** A run from power-on in which a late result spoils an upload: a chip that was never given work answers
    between a header packet and the STATIC packet that moves the merkle window. */
module LateStory {
  import opened Words
  import opened WorkSpec
  import opened Packets
  import opened ManagerSpec
  import opened Transcript
  import opened JobSafety
  import opened Story
  import Bytes
  import Sha256
  import StaleUpload

  function Carries(x: Payload): Event { Packet(Made(P_HEADER, 1, x)) }

  function Numbers(): Event { Packet(Made(P_STATIC, 1, StaticData())) }

  function LateUpload(x: Payload): Events { [Set(), Set(), Carries(x), Collect(1, 0), Numbers(), Set()] }

  function Flipped(bs: seq<Byte>): Bytes32
    requires |bs| < 64
  {
    Bytes.Flip(Sha256.DoubleHash(bs))
  }

  /** The merkle root of an empty job, as work generation writes it. */
  function EmptyRoot(): Bytes32 { Flipped([]) }

  // The states passed through

  predicate Takes(s: State, e: Event, t: State) { Consistent(s) && Possible(e) && t == Step(s, e) && Consistent(t) }

  function Slot0(s: State): (j: Job)
    requires Consistent(s)
    ensures Sized(j) && InRange(j)
  {
    s.slots[0]
  }

  /** A job all of whose numbers but the merkle offset are zero. */
  predicate Empty(j: Job, at: int) {
    && Sized(j) && InRange(j) && j.merkleOffset == at
    && j.coinbaseLen == 0 && j.nmerkles == 0 && j.nonce2Offset == 0 && j.nonce2Size == 0 && j.diff == 0 && j.poolNo == 0
  }

  /** Slot `cur` is current and slot 0 holds an empty job. */
  predicate Idle(s: State, cur: nat, at: int) { Consistent(s) && s.cur == cur && Empty(s.slots[0], at) }

  /** Chip 1 was never given work. */
  predicate NoWork(s: State) { |s.chips| == CHIP_NUMBER && s.chips[1] == Chip(0, 0) }

  predicate Begins(s: State, bytes: seq<Byte>) { Consistent(s) && Slot0(s).header[..32] == bytes }

  lemma IdleConsistent(s: State, cur: nat, at: int)
    requires Idle(s, cur, at)
    ensures Consistent(s) && Empty(Slot0(s), at)
  {
    hide Consistent, Empty;
  }

  // One event more

  lemma Taken(s: State, e: Event, t: State)
    requires Consistent(s) && Possible(e) && t == Step(s, e)
    ensures Takes(s, e, t) && Consistent(t)
  {
    hide Step, Possible, Consistent;
    StepValid(s, e);
  }

  lemma Counted(j: Job, at: int, n: U32)
    requires Empty(j, at)
    ensures Empty(j.(nonce2 := n), at)
  {
  }

  lemma SetIdle(s: State, cur: nat, at: int) returns (t: State)
    requires Idle(s, cur, at)
    ensures Takes(s, Set(), t) && Idle(t, (cur + 1) % 3, at) && t.chips == s.chips
    ensures Slot0(t).header == Slot0(s).header
  {
    hide Step, Set, Possible, Consistent, Idle, Takes, Slot0;
    IdleConsistent(s, cur, at);
    TakeSet(s);
    t := Step(s, Set());
    Taken(s, Set(), t);
    SetKeeps(s, t, cur, at);
  }

  lemma SetKeeps(s: State, t: State, cur: nat, at: int)
    requires Idle(s, cur, at) && Consistent(t)
    requires var w := WriteIdx(s);
      t == s.(nonce2Offset := 0, nonce2Range := 0, slots := s.slots[w := s.slots[w].(nonce2 := 0)], cur := w, newStratum := true)
    ensures Idle(t, (cur + 1) % 3, at) && Slot0(t).header == Slot0(s).header
  {
    hide Sized, InRange, Empty, ChipsValid, RingValid;
    Counted(s.slots[0], at, 0);
  }

  lemma HeaderTaken(s: State, x: Payload) returns (t: State)
    requires Idle(s, 2, 0)
    ensures Takes(s, Carries(x), t) && Idle(t, 2, 0) && t.chips == s.chips && Begins(t, x)
  {
    hide Step, Made, PacketInRange, WithPacket, Sized, InRange, Possible;
    var j := s.slots[0];
    HeaderFits(j, 1, x);
    Fill(s, P_HEADER, 1, x);
    t := Step(s, Carries(x));
    assert Bytes.Splice(j.header, 0, x)[..32] == x;
  }

  lemma NumbersTaken(s: State, bytes: seq<Byte>, d: Payload) returns (t: State)
    requires Idle(s, 2, 0) && Begins(s, bytes) && d == StaticData()
    ensures Takes(s, Packet(Made(P_STATIC, 1, d)), t) && Idle(t, 2, 96) && Begins(t, bytes)
  {
    hide Step, Made, WithPacket, PacketInRange, Possible, StaticData, Consistent, Takes, Empty, Begins, Idle, Slot0;
    IdleConsistent(s, 2, 0);
    NumbersFit(Slot0(s), d);
    SlotZero(s, 2, 0);
    Fill(s, P_STATIC, 1, d);
    var e := Packet(Made(P_STATIC, 1, d));
    t := Step(s, e);
    Taken(s, e, t);
    NumbersKept(s, t, bytes);
  }

  lemma SlotZero(s: State, cur: nat, at: int)
    requires Idle(s, cur, at)
    ensures Consistent(s) && s.cur == cur && Slot0(s) == s.slots[0]
  {
    hide Consistent;
  }

  lemma NumbersKept(s: State, t: State, bytes: seq<Byte>)
    requires Idle(s, 2, 0) && Begins(s, bytes) && Consistent(t)
    requires Empty(Slot0(s).(merkleOffset := 96), 96) && t == s.(slots := s.slots[0 := Slot0(s).(merkleOffset := 96)])
    ensures Idle(t, 2, 96) && Begins(t, bytes)
  {
    hide Sized, InRange, Empty, ChipsValid, RingValid;
  }

  lemma NumbersFit(j: Job, d: Payload)
    requires Empty(j, 0) && d == StaticData()
    ensures PacketInRange(Made(P_STATIC, 1, d))
    ensures WithPacket(j, Made(P_STATIC, 1, d)) == j.(merkleOffset := 96) && Empty(j.(merkleOffset := 96), 96)
  {
    hide Accepted, Made, Field;
    MadeAccepted(P_STATIC, 1, d);
    StaticFields();
  }

  /** Whatever nonce2 is written into it, an empty job has the empty root. */
  lemma RootOfEmpty(j: Job, n: U32)
    requires Empty(j, 0)
    ensures Empty(Patched(j, n), 0) && Patched(j, n).header[..32] == EmptyRoot()
  {
    hide Sha256.DoubleHash, Bytes.Flip;
    assert CoinbaseWith(j, n)[..0] == [];
    assert Branch(j) == [];
  }

  /** The late result writes its root over the bytes just uploaded. */
  lemma LateTaken(s: State, e: Event) returns (t: State)
    requires Idle(s, 2, 0) && NoWork(s) && e.Collect? && e.chip == 1
    ensures Takes(s, e, t) && Idle(t, 2, 0) && Begins(t, EmptyRoot())
  {
    hide Step, Patched, EmptyRoot, Sized, InRange, Empty, Bytes.Flip;
    StaleUpload.StepPatches(s, e);
    t := Step(s, e);
    RootOfEmpty(s.slots[0], s.chips[1].nonce2);
  }

  // The whole run

  /** Every header for the current job begins with these bytes. */
  ghost predicate AllBegin(s: State, bytes: seq<Byte>) {
    Consistent(s) && forall m: U32 :: HeaderFor(s, m)[..32] == bytes
  }

  function HeaderFor(s: State, m: U32): (h: seq<Byte>)
    requires Consistent(s)
    ensures |h| == HEADER_SIZE
  {
    HeaderWith(s.slots[s.cur], m)
  }

  /** The window is elsewhere: generating work leaves the first bytes as they are. */
  lemma FrontStays(s: State, bytes: seq<Byte>)
    requires Idle(s, 0, 96) && Begins(s, bytes)
    ensures AllBegin(s, bytes)
  {
    hide MerkleRoot, Bytes.Flip;
    forall m: U32 ensures HeaderFor(s, m)[..32] == bytes {
      assert HeaderFor(s, m)[..32] == Slot0(s).header[..32];
    }
  }

  /** Whatever was uploaded as the first 32 header bytes, the headers dispatched begin with the root of
      the late result. */
  ghost predicate Spoils(s: State, x: Payload) {
    Consistent(s) && AllPossible(LateUpload(x)) && AllBegin(Run(s, LateUpload(x)), EmptyRoot())
  }

  lemma LateFrom(s: State, x: Payload)
    requires Idle(s, 0, 0) && NoWork(s)
    ensures Spoils(s, x)
  {
    hide Set, Carries, Numbers, StaticData, Made, Run, Possible, Step, Consistent, AllPossible, EmptyRoot, Idle, AllBegin, Begins, LateUpload, Slot0;
    var root := EmptyRoot();
    IdleConsistent(s, 0, 0);
    var s1 := SetIdle(s, 0, 0);
    var s2 := SetIdle(s1, 1, 0);
    var s3 := HeaderTaken(s2, x);
    var s4 := LateTaken(s3, Collect(1, 0));
    var s5 := NumbersTaken(s4, root, StaticData());
    NumbersAre(StaticData());
    var s6 := SetIdle(s5, 2, 96);
    BeginsSame(s5, s6, root);
    FrontStays(s6, root);
    Chain(s, s1, s2, s3, s4, s5, s6, x);
  }

  lemma NumbersAre(d: Payload)
    requires d == StaticData()
    ensures Numbers() == Packet(Made(P_STATIC, 1, d))
  {
    hide Made, StaticData;
  }

  lemma BeginsSame(s: State, t: State, bytes: seq<Byte>)
    requires Begins(s, bytes) && Consistent(t) && Slot0(t).header == Slot0(s).header
    ensures Begins(t, bytes)
  {
  }

  lemma Chain(s: State, s1: State, s2: State, s3: State, s4: State, s5: State, s6: State, x: Payload)
    requires Takes(s, Set(), s1) && Takes(s1, Set(), s2) && Takes(s2, Carries(x), s3)
    requires Takes(s3, Collect(1, 0), s4) && Takes(s4, Numbers(), s5) && Takes(s5, Set(), s6)
    ensures Consistent(s) && AllPossible(LateUpload(x)) && s6 == Run(s, LateUpload(x))
  {
    hide Set, Carries, Numbers, Run, Reports, Possible, Step, Consistent, AllPossible, RepliesTo;
    var e0, e2, e3, e4 := Set(), Carries(x), Collect(1, 0), Numbers();
    NoMore(s6);
    Cons(s5, e0, []);
    Cons(s4, e4, [e0] + []);
    Cons(s3, e3, [e4] + ([e0] + []));
    Cons(s2, e2, [e3] + ([e4] + ([e0] + [])));
    Cons(s1, e0, [e2] + ([e3] + ([e4] + ([e0] + []))));
    Cons(s, e0, [e0] + ([e2] + ([e3] + ([e4] + ([e0] + [])))));
    assert LateUpload(x) == [e0] + ([e0] + ([e2] + ([e3] + ([e4] + ([e0] + [])))));
  }

  lemma FreshIdle(s: State)
    requires Fresh(s) && s.slots[0].merkleOffset == 0
    ensures Idle(s, 0, 0) && NoWork(s)
  {
    hide Sized, InRange;
  }

  /** It happens from power-on. */
  lemma LateResultSpoils(x: Payload)
    ensures Spoils(INITIAL, x)
  {
    PowerOnFresh();
    FreshIdle(INITIAL);
    LateFrom(INITIAL, x);
  }
}
