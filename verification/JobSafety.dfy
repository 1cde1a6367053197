/** A nonce is reported with the job its work was built from. */
module JobSafety {
  import opened Words
  import opened WorkSpec
  import opened Packets
  import opened Options
  import opened ManagerSpec
  import Bytes
  import Sha256

  // What identifies a job: everything but the two windows the firmware patches and the nonce2 counter.

  function Essence(j: Job): Job
    requires Sized(j) && InRange(j)
  {
    Patched(j, 0).(nonce2 := 0)
  }

  lemma EssenceOfPatched(j: Job, n: U32)
    requires Sized(j) && InRange(j)
    ensures Essence(Patched(j, n)) == Essence(j)
  {
    hide Patched;
    PatchedAgain(j, n, 0);
  }

  lemma EssenceIgnoresCounter(j: Job, n: U32)
    requires Sized(j) && InRange(j)
    ensures Sized(j.(nonce2 := n)) && InRange(j.(nonce2 := n)) && Essence(j.(nonce2 := n)) == Essence(j)
    ensures forall n2: U32 :: HeaderWith(j.(nonce2 := n), n2) == HeaderWith(j, n2)
  {
    hide Fold, Sha256.DoubleHash, Bytes.Splice, Bytes.Flip, Bytes.Swap32, Store32;
    forall n2: U32 ensures HeaderWith(j.(nonce2 := n), n2) == HeaderWith(j, n2) {
      assert CoinbaseWith(j.(nonce2 := n), n2) == CoinbaseWith(j, n2);
      assert MerkleRoot(j.(nonce2 := n), n2) == MerkleRoot(j, n2);
    }
    assert CoinbaseWith(j.(nonce2 := n), 0) == CoinbaseWith(j, 0);
  }

  /** Jobs with the same essence produce the same headers and judge nonces the same way. */
  lemma EssenceDecides(a: Job, b: Job, nonce2: U32, nonce: U32)
    requires Sized(a) && InRange(a) && Sized(b) && InRange(b) && Essence(a) == Essence(b)
    ensures a.jobId == b.jobId && a.poolNo == b.poolNo && a.target == b.target
    ensures HeaderWith(a, nonce2) == HeaderWith(b, nonce2)
    ensures Check(a, nonce2, nonce) == Check(b, nonce2, nonce)
  {
    hide HeaderHash, HeaderWith, CoinbaseWith, MerkleRoot, Bytes.LittleEndian, Load32;
    HeaderFromEssence(a, nonce2);
    HeaderFromEssence(b, nonce2);
  }

  lemma HeaderFromEssence(j: Job, nonce2: U32)
    requires Sized(j) && InRange(j)
    ensures Sized(Essence(j)) && InRange(Essence(j)) && HeaderWith(Essence(j), nonce2) == HeaderWith(j, nonce2)
  {
    hide HeaderWith, CoinbaseWith;
    PatchedAgain(j, 0, nonce2);
    HeaderOfPatched(j, nonce2);
    HeaderOfPatched(Patched(j, 0), nonce2);
    EssenceIgnoresCounter(Patched(j, 0), 0);
  }

  // One step

  predicate IsJob(e: Event) { e.Packet? && Accepted(e.p) && IsJobKind(Kind(e.p)) }

  predicate IsSet(e: Event) { e.Packet? && Accepted(e.p) && Kind(e.p) == P_SET }

  /** Only a job packet addressed to a slot changes the job it holds. */
  lemma StepKeepsJob(s: State, e: Event, k: nat)
    requires Consistent(s) && Possible(e) && k < MM_BUF_NUM
    requires IsJob(e) ==> k != WriteIdx(s)
    ensures Consistent(Step(s, e)) && Essence(Step(s, e).slots[k]) == Essence(s.slots[k])
    ensures Step(s, e).cur == if IsSet(e) then WriteIdx(s) else s.cur
  {
    hide Essence, Patched, WithPacket, FirstSuccess, Accepted, Sized, InRange, PacketInRange, PacketFits;
    StepValid(s, e);
    match e
    case Packet(p) => PacketKeepsJob(s, p, k);
    case Dispatch(chip) => DispatchKeepsJob(s, chip, k);
    case PassStart =>
    case Collect(chip, answer) => CollectKeepsJob(s, chip, answer, k);
    case IdleTimeout =>
  }

  lemma PacketKeepsJob(s: State, p: Frame, k: nat)
    requires Consistent(s) && PacketFits(p) && k < MM_BUF_NUM
    requires IsJob(Packet(p)) ==> k != WriteIdx(s)
    ensures Consistent(AfterPacket(s, p)) && Essence(AfterPacket(s, p).slots[k]) == Essence(s.slots[k])
    ensures AfterPacket(s, p).cur == if IsSet(Packet(p)) then WriteIdx(s) else s.cur
  {
    hide Essence, WithPacket, Accepted, Sized, InRange, PacketInRange;
    PacketValid(s, p);
    EssenceIgnoresCounter(s.slots[k], SetNonce2(p));
  }

  lemma DispatchKeepsJob(s: State, chip: nat, k: nat)
    requires Consistent(s) && chip < CHIP_NUMBER && k < MM_BUF_NUM
    ensures Consistent(AfterDispatch(s, chip)) && Essence(AfterDispatch(s, chip).slots[k]) == Essence(s.slots[k])
  {
    hide Essence, Patched, Sized, InRange;
    DispatchValid(s, chip);
    var j := s.slots[s.cur];
    var n := (j.nonce2 + 1) % 0x1_0000_0000;
    EssenceIgnoresCounter(j, n);
    EssenceOfPatched(j.(nonce2 := n), n);
  }

  lemma CollectKeepsJob(s: State, chip: nat, answer: U32, k: nat)
    requires Consistent(s) && chip < CHIP_NUMBER && k < MM_BUF_NUM
    ensures Consistent(AfterCollect(s, chip, answer)) && Essence(AfterCollect(s, chip, answer).slots[k]) == Essence(s.slots[k])
  {
    hide Essence, Patched, FirstSuccess, Sized, InRange;
    CollectValid(s, chip, answer);
    EssenceOfPatched(s.slots[s.chips[chip].mmIdx], s.chips[chip].nonce2);
  }

  // Runs

  function Sets(es: Events): nat
    decreases |es|
  {
    if es == [] then 0 else (if IsSet(es[0]) then 1 else 0) + Sets(es[1..])
  }

  /** A job packet arrives when the number of SETs since the work was built is 2 modulo 3 (`d` of
      them before these events): the work's slot is then the one being written. */
  ghost predicate Spoiled(es: Events, d: nat) {
    exists i :: 0 <= i < |es| && SpoiledAt(es, d, i)
  }

  predicate SpoiledAt(es: Events, d: nat, i: nat)
    requires i < |es|
  {
    IsJob(es[i]) && (d + Sets(es[..i])) % 3 == 2
  }

  lemma SpoiledNext(es: Events, d: nat)
    requires es != []
    ensures (IsJob(es[0]) && d % 3 == 2) || Spoiled(es[1..], d + Sets(es[..1])) ==> Spoiled(es, d)
  {
    hide IsJob, IsSet;
    assert es[..0] == [];
    if IsJob(es[0]) && d % 3 == 2 {
      assert SpoiledAt(es, d, 0);
    } else if Spoiled(es[1..], d + Sets(es[..1])) {
      var i :| 0 <= i < |es[1..]| && SpoiledAt(es[1..], d + Sets(es[..1]), i);
      assert es[..i + 1][1..] == es[1..][..i] && es[..1][1..] == [];
      assert SpoiledAt(es, d, i + 1);
    }
  }

  /** A slot keeps its job through any events that do not spoil it. */
  lemma {:induction false} RunKeepsJob(s: State, es: Events, k: nat, d: nat)
    requires Consistent(s) && AllPossible(es) && k < MM_BUF_NUM && s.cur == (k + d) % 3
    requires !Spoiled(es, d)
    ensures Essence(Run(s, es).slots[k]) == Essence(s.slots[k])
    ensures Run(s, es).cur == (k + d + Sets(es)) % 3
    decreases |es|
  {
    hide Essence, Consistent, Step, Possible, IsJob, IsSet, SlotsValid;
    if es != [] {
      var e, rest := es[0], es[1..];
      SpoiledNext(es, d);
      assert es[..1][1..] == [];
      WriteSlot(s, k, d);
      StepKeepsJob(s, e, k);
      RunKeepsJob(Step(s, e), rest, k, d + Sets(es[..1]));
    }
  }

  lemma WriteSlot(s: State, k: nat, d: nat)
    requires k < 3 && s.cur == (k + d) % 3
    ensures WriteIdx(s) == (k + d + 1) % 3
    ensures WriteIdx(s) == k <==> d % 3 == 2
  {
  }

  /** Fewer than two SETs since the work was built: nothing can have spoiled it. */
  lemma FewSetsKeep(es: Events)
    requires Sets(es) < 2
    ensures !Spoiled(es, 0)
  {
    forall i | 0 <= i < |es| ensures !SpoiledAt(es, 0, i) {
      SetsPrefix(es, i);
    }
  }

  lemma {:induction false} SetsAppend(a: Events, b: Events)
    ensures Sets(a + b) == Sets(a) + Sets(b)
    decreases |a|
  {
    if a == [] {
      assert a + b == b;
    } else {
      SetsAppend(a[1..], b);
      assert (a + b)[1..] == a[1..] + b;
    }
  }

  lemma SetsPrefix(es: Events, i: nat)
    requires i <= |es|
    ensures Sets(es[..i]) <= Sets(es)
  {
    SetsAppend(es[..i], es[i..]);
    assert es[..i] + es[i..] == es;
  }

  // The exact law for id and pool

  predicate IsKind(e: Event, kind: Byte) { e.Packet? && Accepted(e.p) && Kind(e.p) == kind }

  /** What becomes of the job id in a slot: d SETs after the slot was current, job id packets that come
      when the count is 2 modulo 3 replace it. */
  function IdAfter(id: seq<Byte>, es: Events, d: nat): seq<Byte>
    decreases |es|
  {
    if es == [] then id
    else IdAfter(if IsKind(es[0], P_JOB_ID) && d % 3 == 2 then Data(es[0].p)[..4] else id, es[1..], d + if IsSet(es[0]) then 1 else 0)
  }

  /** The same for the pool, which STATIC packets carry. */
  function PoolAfter(pool: U32, es: Events, d: nat): U32
    decreases |es|
  {
    if es == [] then pool
    else PoolAfter(if IsKind(es[0], P_STATIC) && d % 3 == 2 then Field(Data(es[0].p), 24) else pool, es[1..], d + if IsSet(es[0]) then 1 else 0)
  }

  lemma PacketIds(j: Job, p: Frame)
    requires Sized(j) && InRange(j) && PacketInRange(p)
    ensures WithPacket(j, p).jobId == if Kind(p) == P_JOB_ID then Data(p)[..4] else j.jobId
    ensures WithPacket(j, p).poolNo == if Kind(p) == P_STATIC then Field(Data(p), 24) else j.poolNo
  {
    hide Field, Bytes.Splice;
  }

  lemma StepIds(s: State, e: Event, k: nat)
    requires Consistent(s) && Possible(e) && k < MM_BUF_NUM
    ensures Consistent(Step(s, e))
    ensures Step(s, e).slots[k].jobId == if IsKind(e, P_JOB_ID) && k == WriteIdx(s) then Data(e.p)[..4] else s.slots[k].jobId
    ensures Step(s, e).slots[k].poolNo == if IsKind(e, P_STATIC) && k == WriteIdx(s) then Field(Data(e.p), 24) else s.slots[k].poolNo
    ensures Step(s, e).cur == if IsSet(e) then WriteIdx(s) else s.cur
  {
    hide HeaderWith, CoinbaseWith, WithPacket, FirstSuccess, Accepted, Sized, InRange, PacketInRange, Field, SetNonce2;
    StepValid(s, e);
    if e.Packet? && Accepted(e.p) && IsJobKind(Kind(e.p)) {
      PacketIds(s.slots[WriteIdx(s)], e.p);
    }
  }

  /** Over every run the id and the pool in a slot are those folds. */
  lemma {:induction false} IdsFollow(s: State, es: Events, k: nat, d: nat)
    requires Consistent(s) && AllPossible(es) && k < MM_BUF_NUM && s.cur == (k + d) % 3
    ensures Run(s, es).slots[k].jobId == IdAfter(s.slots[k].jobId, es, d)
    ensures Run(s, es).slots[k].poolNo == PoolAfter(s.slots[k].poolNo, es, d)
    decreases |es|
  {
    hide Consistent, Step, Possible, IsKind, IsSet, SlotsValid, Field;
    if es != [] {
      StepIds(s, es[0], k);
      WriteSlot(s, k, d);
      IdsFollow(Step(s, es[0]), es[1..], k, d + if IsSet(es[0]) then 1 else 0);
    }
  }

  /** For the slot that is current at the start. */
  lemma CurrentIds(s: State, es: Events)
    requires Consistent(s) && AllPossible(es)
    ensures s.cur < MM_BUF_NUM && Run(s, es).slots[s.cur].jobId == IdAfter(s.slots[s.cur].jobId, es, 0)
    ensures Run(s, es).slots[s.cur].poolNo == PoolAfter(s.slots[s.cur].poolNo, es, 0)
  {
    hide Run, IdAfter, PoolAfter, Possible;
    IdsFollow(s, es, s.cur, 0);
  }
}
