/** The manager as a state machine: three job slots, the chips' records, the result ring, the counters. */
module ManagerSpec {
  import opened Words
  import Bytes
  import opened WorkSpec
  import opened Packets
  import opened Options

  const MM_BUF_NUM: nat := 3
  const CHIP_NUMBER: nat := 80
  const RING_SIZE: nat := 64

  /** `struct chip_status`. */
  datatype Chip = Chip(nonce2: U32, mmIdx: nat)

  /** `struct be200_result`. */
  datatype Result = Result(idx: nat, nonce2: U32, nonce: U32, mmIdx: nat)

  /** The static variables of main.c; `found` is the local of the result pass under way. */
  datatype State = State(
    slots: seq<Job>, cur: nat, nonce2Offset: U32, nonce2Range: U32, newStratum: bool,
    chips: seq<Chip>, ring: seq<Result>, produce: nat, consume: nat,
    localWork: nat, hwWork: nat, totalNonce: nat, resetFlag: nat, found: bool)

  predicate SlotsValid(s: State) {
    |s.slots| == MM_BUF_NUM && forall k :: 0 <= k < MM_BUF_NUM ==> Sized(s.slots[k]) && InRange(s.slots[k])
  }

  predicate ChipsValid(s: State) {
    |s.chips| == CHIP_NUMBER && forall c :: 0 <= c < CHIP_NUMBER ==> s.chips[c].mmIdx < MM_BUF_NUM
  }

  predicate RingValid(s: State) {
    && |s.ring| == RING_SIZE && s.produce < RING_SIZE && s.consume < RING_SIZE
    && forall i :: 0 <= i < RING_SIZE ==> s.ring[i].mmIdx < MM_BUF_NUM && s.ring[i].idx < CHIP_NUMBER
  }

  predicate Consistent(s: State) {
    SlotsValid(s) && s.cur < MM_BUF_NUM && ChipsValid(s) && RingValid(s) && s.resetFlag < 10
  }

  const INITIAL: State := State(
    [EMPTY_JOB, EMPTY_JOB, EMPTY_JOB], 0, 0, 0xffff_ffff, false,
    seq(CHIP_NUMBER, _ => Chip(0, 0)), seq(RING_SIZE, _ => Result(0, 0, 0, 0)), 0, 0, 0, 0, 0, 0, false)

  lemma InitialValid()
    ensures Consistent(INITIAL)
  {
  }

  /** The slot job packets write to. */
  function WriteIdx(s: State): nat { (s.cur + 1) % MM_BUF_NUM }

  // Packets

  function Field(d: Payload, at: nat): U32
    requires at + 4 <= 32
  {
    Load32(d[at..at + 4])
  }

  /** A C `int` stored as four bytes. */
  function Signed(n: U32): int { if n < 0x8000_0000 then n else n - 0x1_0000_0000 }

  /** The kinds of packet that fill a job slot. */
  predicate IsJobKind(kind: Byte) {
    kind in {P_STATIC, P_JOB_ID, P_COINBASE, P_MERKLES, P_HEADER, P_TARGET}
  }

  /** The packet indices and windows stay inside the buffers they address. */
  predicate PacketInRange(p: Frame) {
    var idx, d := Idx(p), Data(p);
    match Kind(p)
    case 11 => // STATIC
      && Field(d, 0) <= COINBASE_SIZE
      && 0 <= Signed(Field(d, 4)) && Signed(Field(d, 4)) + 4 <= COINBASE_SIZE
      && 0 <= Signed(Field(d, 12)) && Signed(Field(d, 12)) + 32 <= HEADER_SIZE
      && Signed(Field(d, 16)) <= MERKLES_COUNT
    case 13 => 1 <= idx <= 64      // COINBASE
    case 14 => 1 <= idx <= 20      // MERKLES
    case 15 => 1 <= idx <= 4       // HEADER
    case _ => true
  }

  /** A frame is either rejected or in range. */
  predicate PacketFits(p: Frame) { Accepted(p) ==> PacketInRange(p) }

  /** What a job packet makes of the slot it is written to. */
  function WithPacket(j: Job, p: Frame): (r: Job)
    requires Sized(j) && InRange(j) && PacketInRange(p)
    ensures Sized(r) && InRange(r)
    ensures !IsJobKind(Kind(p)) ==> r == j
  {
    var idx, d := Idx(p), Data(p);
    match Kind(p)
    case 11 => j.(coinbaseLen := Field(d, 0), nonce2Offset := Signed(Field(d, 4)), nonce2Size := Signed(Field(d, 8)),
                  merkleOffset := Signed(Field(d, 12)), nmerkles := Signed(Field(d, 16)), diff := Field(d, 20), poolNo := Field(d, 24))
    case 12 => j.(jobId := d[..4])
    case 13 => j.(coinbase := WithCoinbase(j.coinbase, idx, d))
    case 14 => j.(merkles := j.merkles[idx as int - 1 := d])
    case 15 => j.(header := WithHeader(j.header, idx, d))
    case 17 => j.(target := d)
    case _ => j
  }

  function WithCoinbase(coinbase: seq<Byte>, idx: Byte, d: Payload): (c: seq<Byte>)
    requires |coinbase| == COINBASE_SIZE && 1 <= idx <= 64
    ensures |c| == COINBASE_SIZE
  {
    Bytes.Splice(if idx == 1 then seq(COINBASE_SIZE, _ => 0) else coinbase, 32 * (idx as int - 1), d)
  }

  function WithHeader(header: seq<Byte>, idx: Byte, d: Payload): (h: seq<Byte>)
    requires |header| == HEADER_SIZE && 1 <= idx <= 4
    ensures |h| == HEADER_SIZE
  {
    Bytes.Splice(header, 32 * (idx as int - 1), d)
  }

  /** The first nonce2 of a SET packet's range, before the increment of the first dispatch. */
  function SetNonce2(p: Frame): U32 { (Field(Data(p), 8) + Field(Data(p), 12)) % 0x1_0000_0000 }

  function AfterPacket(s: State, p: Frame): State
    requires Consistent(s) && PacketFits(p)
  {
    var w := WriteIdx(s);
    if !Accepted(p) then s
    else if Kind(p) == P_DETECT then s.(newStratum := false)
    else if IsJobKind(Kind(p)) then s.(slots := s.slots[w := WithPacket(s.slots[w], p)])
    else if Kind(p) == P_POLLING then AfterPoll(s)
    else if Kind(p) == P_SET then
      s.(nonce2Offset := Field(Data(p), 8), nonce2Range := Field(Data(p), 12),
         slots := s.slots[w := s.slots[w].(nonce2 := SetNonce2(p))], cur := w, newStratum := true)
    else s
  }

  // Polling

  function AfterPoll(s: State): State {
    if s.consume == s.produce then s.(localWork := 0, hwWork := 0)
    else s.(consume := (s.consume + 1) % RING_SIZE)
  }

  /** What is sent back to the host. */
  datatype Report =
    | NonceFound(idx: nat, poolNo: U32, nonce2: U32, nonce: U32, jobId: seq<Byte>)
    | Status(localWork: nat, hwWork: nat)
    | Version

  function PollReport(s: State): Report
    requires Consistent(s)
  {
    if s.consume == s.produce then Status(s.localWork, s.hwWork)
    else
      var r := s.ring[s.consume];
      NonceFound(r.idx, s.slots[r.mmIdx].poolNo, r.nonce2, r.nonce, s.slots[r.mmIdx].jobId)
  }

  /** What an accepted packet is answered with. */
  function Replies(s: State, p: Frame): seq<Report>
    requires Consistent(s)
  {
    if !Accepted(p) then []
    else if Kind(p) == P_POLLING then [PollReport(s)]
    else if Kind(p) == P_DETECT then [Version]
    else if Kind(p) == P_REQUIRE then [Status(s.localWork, s.hwWork)]
    else []
  }

  // Dispatch

  function NextNonce2Of(s: State): U32
    requires Consistent(s)
  {
    (s.slots[s.cur].nonce2 + 1) % 0x1_0000_0000
  }

  /** The current slot's counter counted up and its buffers patched for the new value. */
  function WithNextWork(s: State): State
    requires Consistent(s)
  {
    var n := NextNonce2Of(s);
    s.(slots := s.slots[s.cur := Patched(s.slots[s.cur].(nonce2 := n), n)])
  }

  function AfterDispatch(s: State, chip: nat): State
    requires Consistent(s) && chip < CHIP_NUMBER
  {
    WithNextWork(s).(chips := s.chips[chip := Chip(NextNonce2Of(s), s.cur)])
  }

  /** The 44 bytes handed to the chip. */
  function TaskSent(s: State): seq<Byte>
    requires Consistent(s)
  {
    var n := NextNonce2Of(s);
    Task(HeaderWith(s.slots[s.cur].(nonce2 := n), n))
  }

  // Results

  /** The offsets tried around a chip's answer, in order. */
  const OFFSETS: seq<int> := [0, -1, 1, -2, 2, -3, 3, 4, -4]

  function Candidate(answer: U32, i: nat): U32
    requires i < 9
  {
    (answer + OFFSETS[i]) % 0x1_0000_0000
  }

  /** The first candidate from the i-th on whose hash is below the job's target. */
  function FirstSuccess(j: Job, nonce2: U32, answer: U32, i: nat): Option<U32>
    requires Sized(j) && InRange(j) && i <= 9
    decreases 9 - i
  {
    if i == 9 then None
    else if Check(j, nonce2, Candidate(answer, i)).Diff? then Some(Candidate(answer, i))
    else FirstSuccess(j, nonce2, answer, i + 1)
  }

  /** One ready chip of a result pass. */
  function AfterCollect(s: State, chip: nat, answer: U32): State
    requires Consistent(s) && chip < CHIP_NUMBER
  {
    var k, n := s.chips[chip].mmIdx, s.chips[chip].nonce2;
    var hit := FirstSuccess(s.slots[k], n, answer, 0);
    var t := s.(slots := s.slots[k := Patched(s.slots[k], n)], localWork := s.localWork + 1);
    if hit.Some? then
      t.(totalNonce := s.totalNonce + 1, ring := s.ring[s.produce := Result(chip, n, hit.value, k)],
         produce := (s.produce + 1) % RING_SIZE, found := true)
    else if !s.found then t.(hwWork := s.hwWork + 1, resetFlag := if s.resetFlag + 1 >= 10 then 0 else s.resetFlag + 1)
    else t
  }

  // Runs

  /** The atomic steps of the firmware. A result pass is a PassStart and a Collect for each ready chip. */
  datatype Event =
    | Packet(p: Frame)
    | Dispatch(chip: nat)
    | PassStart
    | Collect(chip: nat, answer: U32)
    | IdleTimeout

  predicate Possible(e: Event) {
    match e
    case Packet(p) => PacketFits(p)
    case Dispatch(chip) => chip < CHIP_NUMBER
    case Collect(chip, _) => chip < CHIP_NUMBER
    case _ => true
  }

  function Step(s: State, e: Event): State
    requires Consistent(s) && Possible(e)
  {
    match e
    case Packet(p) => AfterPacket(s, p)
    case Dispatch(chip) => AfterDispatch(s, chip)
    case PassStart => s.(found := false)
    case Collect(chip, answer) => AfterCollect(s, chip, answer)
    case IdleTimeout => if s.newStratum then s.(newStratum := false, produce := 0, consume := 0) else s
  }

  lemma StepValid(s: State, e: Event)
    requires Consistent(s) && Possible(e)
    ensures Consistent(Step(s, e))
  {
    hide Patched, WithPacket, FirstSuccess, Accepted, Sized, InRange, PacketInRange, PacketFits;
    match e
    case Packet(p) => PacketValid(s, p);
    case Dispatch(chip) => DispatchValid(s, chip);
    case PassStart =>
    case Collect(chip, answer) => CollectValid(s, chip, answer);
    case IdleTimeout =>
  }

  lemma PacketValid(s: State, p: Frame)
    requires Consistent(s) && PacketFits(p)
    ensures Consistent(AfterPacket(s, p))
  {
    hide WithPacket, Accepted, PacketInRange;
  }

  lemma DispatchValid(s: State, chip: nat)
    requires Consistent(s) && chip < CHIP_NUMBER
    ensures Consistent(AfterDispatch(s, chip))
  {
    hide Patched;
  }

  lemma CollectValid(s: State, chip: nat, answer: U32)
    requires Consistent(s) && chip < CHIP_NUMBER
    ensures Consistent(AfterCollect(s, chip, answer))
  {
    hide Patched, FirstSuccess;
  }

  type Events = seq<Event>

  predicate AllPossible(es: Events) {
    forall i :: 0 <= i < |es| ==> Possible(es[i])
  }

  function Run(s: State, es: Events): (t: State)
    requires Consistent(s) && AllPossible(es)
    ensures Consistent(t)
    decreases |es|
  {
    if es == [] then s
    else
      StepValid(s, es[0]);
      Run(Step(s, es[0]), es[1..])
  }

  lemma {:induction false} RunAppend(s: State, a: Events, b: Events)
    requires Consistent(s) && AllPossible(a) && AllPossible(b)
    ensures AllPossible(a + b) && Run(s, a + b) == Run(Run(s, a), b)
    decreases |a|
  {
    hide Step, Consistent, Possible;
    if a == [] {
      assert a + b == b;
    } else {
      StepValid(s, a[0]);
      RunAppend(Step(s, a[0]), a[1..], b);
      assert (a + b)[1..] == a[1..] + b;
    }
  }
}
