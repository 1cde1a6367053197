/** The main program: packet handling, dispatch to the chips, result collection. */
module Manager {
  import opened Words
  import opened Options
  import opened Bytes
  import opened Packets
  import opened WorkSpec
  import opened Miner
  import opened ManagerSpec
  import opened Crc16
  import SU = ShaUnit

  /** `memcpy`s of a job packet's data into a slot. */
  method StorePacket(mw: MmWork, p: Frame)
    requires mw.Valid() && InRange(mw.Contents()) && PacketInRange(p) && IsJobKind(Kind(p))
    modifies mw.Repr()
    ensures mw.Valid() && mw.Contents() == WithPacket(old(mw.Contents()), p)
  {
    hide Load32;
    var d: Payload := Data(p);
    var idx: int := Idx(p);
    ghost var job := mw.Contents();
    if Kind(p) == P_STATIC {
      mw.coinbaseLen := Field(d, 0);
      mw.nonce2Offset := Signed(Field(d, 4));
      mw.nonce2Size := Signed(Field(d, 8));
      mw.merkleOffset := Signed(Field(d, 12));
      mw.nmerkles := Signed(Field(d, 16));
      mw.diff := Field(d, 20);
      mw.poolNo := Field(d, 24);
    } else if Kind(p) == P_JOB_ID {
      mw.jobId := d[..4];
    } else if Kind(p) == P_COINBASE {
      StoreCoinbase(mw.coinbase, idx, d);
    } else if Kind(p) == P_MERKLES {
      mw.merkles := mw.merkles[idx - 1 := d];
    } else if Kind(p) == P_HEADER {
      CopyTo(mw.header, (idx - 1) * P_DATA_LEN, d);
    } else {
      mw.target := d;
    }
  }

  method StoreCoinbase(coinbase: array<Byte>, idx: int, d: Payload)
    requires coinbase.Length == COINBASE_SIZE && 1 <= idx <= 64
    modifies coinbase
    ensures coinbase[..] == WithCoinbase(old(coinbase[..]), idx, d)
  {
    if idx == 1 {
      forall i | 0 <= i < COINBASE_SIZE { coinbase[i] := 0; }
      assert coinbase[..] == seq(COINBASE_SIZE, _ => 0);
    }
    CopyTo(coinbase, (idx - 1) * P_DATA_LEN, d);
  }

  /** The scalar static variables. */
  datatype Statics = Statics(
    cur: nat, nonce2Offset: U32, nonce2Range: U32, newStratum: bool, produce: nat, consume: nat,
    localWork: nat, hwWork: nat, totalNonce: nat, resetFlag: nat)

  class Manager {
    const work0: MmWork
    const work1: MmWork
    const work2: MmWork
    const chips: array<Chip>
    const ring: array<Result>
    const dev: SU.Unit
    var v: Statics

    var found: bool   // the local of the result pass under way

    ghost function Repr(): set<object> {
      {this, chips, ring} + work0.Repr() + work1.Repr() + work2.Repr() + dev.Repr()
    }

    ghost predicate Separate() {
      work0.Repr() !! work1.Repr() !! work2.Repr() !! dev.Repr() !! {this, chips, ring}
    }

    ghost function Abs(): State
      reads Repr()
    {
      State([work0.Contents(), work1.Contents(), work2.Contents()], v.cur, v.nonce2Offset, v.nonce2Range, v.newStratum,
            chips[..], ring[..], v.produce, v.consume, v.localWork, v.hwWork, v.totalNonce, v.resetFlag, found)
    }

    ghost predicate Valid()
      reads Repr()
    {
      Separate() && Consistent(Abs()) && dev.Valid() && SU.Idle(dev.phase)
    }

    /** The statically allocated variables. */
    constructor (work0: MmWork, work1: MmWork, work2: MmWork, dev: SU.Unit)
      requires work0.Contents() == work1.Contents() == work2.Contents() == EMPTY_JOB
      requires work0.Repr() !! work1.Repr() !! work2.Repr() !! dev.Repr()
      requires dev.Valid() && SU.Idle(dev.phase)
      ensures Valid() && Abs() == INITIAL
      ensures this.work0 == work0 && this.work1 == work1 && this.work2 == work2 && this.dev == dev
    {
      hide SU.Unit.Valid, SU.Idle, Consistent, EMPTY_JOB;
      this.work0, this.work1, this.work2, this.dev := work0, work1, work2, dev;
      chips := new Chip[CHIP_NUMBER](_ => Chip(0, 0));
      ring := new Result[RING_SIZE](_ => Result(0, 0, 0, 0));
      v := Statics(0, 0, 0xffff_ffff, false, 0, 0, 0, 0, 0, 0);
      found := false;
      new;
      InitialConsistent();
      assert Separate();
      assert Abs() == INITIAL by {
        assert chips[..] == INITIAL.chips && ring[..] == INITIAL.ring;
      }
    }

    lemma SlotFacts()
      requires Consistent(Abs())
      ensures work0.Valid() && InRange(work0.Contents())
      ensures work1.Valid() && InRange(work1.Contents())
      ensures work2.Valid() && InRange(work2.Contents())
      ensures forall k :: 0 <= k < MM_BUF_NUM ==> Sized(Abs().slots[k]) && InRange(Abs().slots[k])
    {
      hide Sized, InRange;
      var s := Abs();
      assert Sized(s.slots[0]) && InRange(s.slots[0]);
      assert Sized(s.slots[1]) && InRange(s.slots[1]);
      assert Sized(s.slots[2]) && InRange(s.slots[2]);
    }

    /** `&g_mm_works[k]`. */
    function Slot(k: nat): MmWork
      requires k < MM_BUF_NUM
    {
      if k == 0 then work0 else if k == 1 then work1 else work2
    }

    /** `be200_polling`. */
    method Polling() returns (report: Report)
      requires Valid()
      modifies this
      ensures Valid() && Abs() == AfterPoll(old(Abs())) && report == PollReport(old(Abs()))
    {
      hide SU.Unit.Valid, Sized, InRange;
      if v.consume == v.produce {
        report := Status(v.localWork, v.hwWork);
        v := v.(localWork := 0, hwWork := 0);
        return;
      }
      var data := ring[v.consume];
      v := v.(consume := (v.consume + 1) % RING_SIZE);
      var mw := Slot(data.mmIdx);
      report := NonceFound(data.idx, mw.poolNo, data.nonce2, data.nonce, mw.jobId);
    }

    /** A job packet goes to the slot after the current one. */
    method StoreJob(p: Frame)
      requires Valid() && PacketInRange(p) && IsJobKind(Kind(p))
      modifies Repr()
      ensures Valid()
      ensures var s := old(Abs()); Abs() == s.(slots := s.slots[WriteIdx(s) := WithPacket(s.slots[WriteIdx(s)], p)])
    {
      hide SU.Unit.Valid, SU.Idle, WithPacket, Sized, InRange, PacketInRange, IsJobKind, Consistent, MmWork.Valid, MmWork.Contents;
      SlotFacts();
      var w := (v.cur + 1) % MM_BUF_NUM;
      PacketConsistent(Abs(), w, p);
      ghost var goal := Abs().(slots := Abs().slots[w := WithPacket(Abs().slots[w], p)]);
      if w == 0 {
        StorePacket(work0, p);
      } else if w == 1 {
        StorePacket(work1, p);
      } else {
        StorePacket(work2, p);
      }
      assert Abs().slots == goal.slots;
    }

    /** `mw->nonce2 = n` for slot w. */
    method SetNonce2Of(w: nat, n: U32)
      requires Separate() && w < MM_BUF_NUM
      modifies work0, work1, work2
      ensures Slot(w).nonce2 == n
      ensures Abs() == old(Abs()).(slots := old(Abs()).slots[w := old(Abs()).slots[w].(nonce2 := n)])
    {
      if w == 0 {
        work0.nonce2 := n;
      } else if w == 1 {
        work1.nonce2 := n;
      } else {
        work2.nonce2 := n;
      }
    }

    /** A SET packet gives the next slot its nonce2 range and makes it current. */
    method StoreSet(p: Frame)
      requires Valid() && Accepted(p) && Kind(p) == P_SET && PacketInRange(p)
      modifies this, work0, work1, work2
      ensures Valid() && Abs() == AfterPacket(old(Abs()), p)
    {
      hide SU.Unit.Valid, SU.Idle, Field, Accepted, PacketInRange, Consistent, AfterPacket, MmWork.Contents;
      PacketValid(Abs(), p);
      SetPacket(Abs(), p);
      CurBelow();
      var offset, range := Field(Data(p), 8), Field(Data(p), 12);
      var sum: int := offset as int + range as int;
      var w := (v.cur + 1) % MM_BUF_NUM;
      SetNonce2Of(w, sum % 0x1_0000_0000);
      v := v.(nonce2Offset := offset, nonce2Range := range, cur := w, newStratum := true);
    }

    lemma CurBelow()
      requires Consistent(Abs())
      ensures v.cur == Abs().cur < MM_BUF_NUM
    {
    }

    /** `decode_pkg`: 1 for a bad CRC. */
    method DecodePkg(p: Frame) returns (rc: int, report: Option<Report>)
      requires Valid() && PacketFits(p)
      modifies Repr()
      ensures Valid() && Abs() == AfterPacket(old(Abs()), p)
      ensures rc == if Accepted(p) then 0 else 1
      ensures report == if Accepted(p) && Kind(p) == P_POLLING then Some(PollReport(old(Abs()))) else None
    {
      hide SU.Unit.Valid, WithPacket, Sized, InRange, PacketInRange, Crc, Pair;
      report := None;
      var data := Data(p);
      var expected := Pair(BitsOf(p[37]), BitsOf(p[38]));
      var actual := ComputeCrc16(data, P_DATA_LEN);
      assert data[..32] == data;
      if expected != actual {
        return 1, None;
      }
      rc := 0;
      if Kind(p) == P_DETECT {
        v := v.(newStratum := false);
      } else if IsJobKind(Kind(p)) {
        StoreJob(p);
      } else if Kind(p) == P_POLLING {
        var r := Polling();
        report := Some(r);
      } else if Kind(p) == P_SET {
        StoreSet(p);
      }
    }

    /** Generates work in slot w's buffers. */
    method Generate(w: nat, nonce2: U32, work: Work)
      requires Valid() && w < MM_BUF_NUM && work.Valid() && work.Repr() !! Repr()
      modifies work0.Repr(), work1.Repr(), work2.Repr(), dev.Repr(), work`nonce2, work.data, work.header
      ensures Valid() && work.nonce2 == nonce2
      ensures var s := old(Abs()); Abs() == s.(slots := s.slots[w := Patched(s.slots[w], nonce2)])
      ensures work.data[..] == Task(HeaderWith(old(Abs()).slots[w], nonce2))
    {
      hide SU.Unit.Valid, SU.Idle, Patched, Sized, InRange, Task, HeaderWith, Consistent, MmWork.Valid, MmWork.Contents;
      SlotFacts();
      PatchConsistent(Abs(), w, nonce2);
      ghost var goal := Abs().(slots := Abs().slots[w := Patched(Abs().slots[w], nonce2)]);
      GenNonce2Work(Slot(w), nonce2, work, dev);
      assert Abs().slots == goal.slots;
    }

    /** Searches around a chip's answer with slot w's job. */
    method SearchSlot(w: nat, nonce2: U32, answer: U32) returns (hit: Option<U32>)
      requires Valid() && w < MM_BUF_NUM
      modifies Repr()
      ensures Valid()
      ensures var s := old(Abs()); Abs() == s.(slots := s.slots[w := Patched(s.slots[w], nonce2)])
      ensures hit == FirstSuccess(old(Abs()).slots[w], nonce2, answer, 0)
    {
      hide SU.Unit.Valid, SU.Idle, Patched, Sized, InRange, FirstSuccess, Consistent, MmWork.Valid, MmWork.Contents;
      SlotFacts();
      PatchConsistent(Abs(), w, nonce2);
      ghost var goal := Abs().(slots := Abs().slots[w := Patched(Abs().slots[w], nonce2)]);
      hit := Search(Slot(w), nonce2, answer, dev);
      assert Abs().slots == goal.slots;
    }

    /** `be200_send_work`: the chip's registers are not modelled; its record is. */
    method SendWork(idx: nat, work: Work)
      requires Valid() && idx < CHIP_NUMBER && work.mmIdx < MM_BUF_NUM
      modifies chips
      ensures Valid() && Abs() == old(Abs()).(chips := old(Abs()).chips[idx := Chip(work.nonce2, work.mmIdx)])
    {
      hide SU.Unit.Valid, SU.Idle, Consistent;
      assert |Abs().chips| == chips.Length;
      ChipsLength(Abs());
      ChipConsistent(Abs(), idx, Chip(work.nonce2, work.mmIdx));
      chips[idx] := Chip(work.nonce2, work.mmIdx);
    }

    /** The next nonce2 of the current slot. */
    method NextNonce2() returns (n: U32)
      requires Valid()
      modifies work0, work1, work2
      ensures Valid() && n == (old(Abs()).slots[old(Abs()).cur].nonce2 + 1) % 0x1_0000_0000
      ensures var s := old(Abs()); Abs() == s.(slots := s.slots[s.cur := s.slots[s.cur].(nonce2 := n)])
    {
      hide SU.Unit.Valid, SU.Idle, Consistent;
      CurBelow();
      var mw := Slot(v.cur);
      n := (mw.nonce2 + 1) % 0x1_0000_0000;
      CounterConsistent(Abs(), v.cur, n);
      SetNonce2Of(v.cur, n);
    }

    /** Counts the current slot's nonce2 up and generates its work. */
    method NextWork(work: Work)
      requires Valid() && work.Valid() && work.Repr() !! Repr()
      modifies work0.Repr(), work1.Repr(), work2.Repr(), dev.Repr(), work.Repr()
      ensures Valid() && work.nonce2 == NextNonce2Of(old(Abs())) && work.mmIdx == old(Abs()).cur
      ensures Abs() == WithNextWork(old(Abs())) && work.data[..] == TaskSent(old(Abs()))
    {
      hide SU.Unit.Valid, SU.Idle, Consistent, Separate, Task, TaskSent, WithNextWork, HeaderWith, Patched, Sized, InRange, Abs;
      ghost var s := Abs();
      CurBelow();
      var n := NextNonce2();
      CurBelow();
      Generate(v.cur, n, work);
      CurBelow();
      work.mmIdx := v.cur;
      UpdateTwice(s, n);
    }

    /** One idle chip of the dispatch loop. */
    method DispatchTo(idx: nat, work: Work)
      requires Valid() && idx < CHIP_NUMBER && work.Valid() && work.Repr() !! Repr()
      modifies Repr(), work.Repr()
      ensures Valid() && Abs() == AfterDispatch(old(Abs()), idx)
      ensures work.data[..] == TaskSent(old(Abs()))
    {
      hide SU.Unit.Valid, SU.Idle, Consistent, Separate, TaskSent, Patched, Sized, InRange, Abs;
      NextWork(work);
      CurBelow();
      SendWork(idx, work);
    }

    lemma AbsConsistent()
      requires Valid()
      ensures Consistent(Abs())
    {
    }

    /** `found = 0` at the start of `be200_read_result`. */
    method BeginPass()
      requires Valid()
      modifies this
      ensures Valid() && Abs() == ManagerSpec.Step(old(Abs()), PassStart)
    {
      hide SU.Unit.Valid, SU.Idle, Sized, InRange;
      found := false;
    }

    /** The idle timer has run out. */
    method Timeout()
      requires Valid()
      modifies this
      ensures Valid() && Abs() == ManagerSpec.Step(old(Abs()), IdleTimeout)
    {
      hide SU.Unit.Valid, SU.Idle, Sized, InRange;
      if v.newStratum {
        v := v.(newStratum := false, produce := 0, consume := 0);
      }
    }

    /** One ready chip of `be200_read_result`. */
    method CollectChip(idx: nat, answer: U32)
      requires Valid() && idx < CHIP_NUMBER
      modifies Repr()
      ensures Valid() && Abs() == AfterCollect(old(Abs()), idx, answer)
    {
      hide SU.Unit.Valid, SU.Idle, Consistent, Separate, FirstSuccess, Patched, Sized, InRange, Abs, AfterCollect, Recorded;
      CollectValid(Abs(), idx, answer);
      CollectRecords(Abs(), idx, answer);
      IndicesBelow(idx);
      var status := chips[idx];
      var hit := SearchSlot(status.mmIdx, status.nonce2, answer);
      IndicesBelow(idx);
      RecordOutcome(idx, status, hit);
    }

    method RecordOutcome(idx: nat, status: Chip, hit: Option<U32>)
      requires Separate() && v.produce < RING_SIZE == ring.Length
      modifies this, ring
      ensures Separate() && dev.phase == old(dev.phase) && (old(dev.Valid()) ==> dev.Valid())
      ensures Abs() == Recorded(old(Abs()), idx, status, hit)
    {
      hide SU.Unit.Valid, MmWork.Contents;
      v := v.(localWork := v.localWork + 1);
      if hit.Some? {
        ring[v.produce] := Result(idx, status.nonce2, hit.value, status.mmIdx);
        v := v.(totalNonce := v.totalNonce + 1, produce := (v.produce + 1) % RING_SIZE);
        found := true;
      } else if !found {
        v := v.(hwWork := v.hwWork + 1, resetFlag := v.resetFlag + 1);
        if v.resetFlag >= 10 {
          v := v.(resetFlag := 0);
        }
      }
    }

    lemma IndicesBelow(idx: nat)
      requires Consistent(Abs()) && idx < CHIP_NUMBER
      ensures v.produce < RING_SIZE == ring.Length && chips.Length == CHIP_NUMBER
      ensures chips[idx] == Abs().chips[idx] && chips[idx].mmIdx < MM_BUF_NUM
    {
      assert chips[idx] == Abs().chips[idx];
    }
  }

  /** The counters and the ring after one ready chip was judged. */
  function Recorded(s: State, idx: nat, status: Chip, hit: Option<U32>): State
    requires s.produce < |s.ring|
  {
    var t := s.(localWork := s.localWork + 1);
    if hit.Some? then
      t.(totalNonce := s.totalNonce + 1, found := true, produce := (s.produce + 1) % RING_SIZE,
         ring := s.ring[s.produce := Result(idx, status.nonce2, hit.value, status.mmIdx)])
    else if !s.found then t.(hwWork := s.hwWork + 1, resetFlag := if s.resetFlag + 1 >= 10 then 0 else s.resetFlag + 1)
    else t
  }

  lemma SetPacket(s: State, p: Frame)
    requires Consistent(s) && Accepted(p) && Kind(p) == P_SET && PacketInRange(p)
    ensures var w, offset, range := WriteIdx(s), Field(Data(p), 8), Field(Data(p), 12);
      w < |s.slots| && AfterPacket(s, p) == s.(nonce2Offset := offset, nonce2Range := range, cur := w, newStratum := true,
        slots := s.slots[w := s.slots[w].(nonce2 := (offset as int + range as int) % 0x1_0000_0000)])
  {
    hide Accepted, Field, Sized, InRange;
  }

  /** Patching the slot and recording the outcome is one collection. */
  lemma CollectRecords(s: State, idx: nat, answer: U32)
    requires Consistent(s) && idx < CHIP_NUMBER
    ensures var c := s.chips[idx];
      var t := s.(slots := s.slots[c.mmIdx := Patched(s.slots[c.mmIdx], c.nonce2)]);
      t.produce < |t.ring| && Recorded(t, idx, c, FirstSuccess(s.slots[c.mmIdx], c.nonce2, answer, 0)) == AfterCollect(s, idx, answer)
  {
    hide Patched, FirstSuccess, Sized, InRange;
  }

  lemma ChipsLength(s: State)
    requires Consistent(s)
    ensures |s.chips| == CHIP_NUMBER
  {
  }

  lemma ChipConsistent(s: State, c: nat, chip: Chip)
    requires Consistent(s) && c < CHIP_NUMBER && chip.mmIdx < MM_BUF_NUM
    ensures Consistent(s.(chips := s.chips[c := chip]))
  {
  }

  /** Counting up and then patching the same slot is one update. */
  lemma UpdateTwice(s: State, n: U32)
    requires Consistent(s) && n == NextNonce2Of(s)
    ensures var t := s.(slots := s.slots[s.cur := s.slots[s.cur].(nonce2 := n)]);
      && Consistent(t) && t.(slots := t.slots[t.cur := Patched(t.slots[t.cur], n)]) == WithNextWork(s)
      && Task(HeaderWith(t.slots[t.cur], n)) == TaskSent(s)
  {
    hide Patched, HeaderWith, Task;
  }

  lemma CounterConsistent(s: State, w: nat, n: U32)
    requires Consistent(s) && w < MM_BUF_NUM
    ensures Consistent(s.(slots := s.slots[w := s.slots[w].(nonce2 := n)]))
  {
  }

  lemma PatchedSized(j: Job, nonce2: U32)
    requires Sized(j) && InRange(j)
    ensures Sized(Patched(j, nonce2)) && InRange(Patched(j, nonce2))
  {
  }

  /** Tries the nonces around a chip's answer in order until one is good. */
  method Search(mw: MmWork, nonce2: U32, answer: U32, dev: SU.Unit) returns (hit: Option<U32>)
    requires mw.Valid() && InRange(mw.Contents()) && dev.Valid() && SU.Idle(dev.phase) && dev.Repr() !! mw.Repr()
    modifies mw.coinbase, mw.header, dev.Repr()
    ensures dev.Valid() && SU.Idle(dev.phase) && mw.Valid()
    ensures mw.Contents() == Patched(old(mw.Contents()), nonce2)
    ensures hit == FirstSuccess(old(mw.Contents()), nonce2, answer, 0)
  {
    hide SU.Unit.Valid, Patched, Sized, InRange, Check, SU.Idle;
    ghost var job := mw.Contents();
    hit := None;
    var i := 0;
    while i < 9
      invariant 0 <= i <= 9 && dev.Valid() && SU.Idle(dev.phase) && mw.Valid() && InRange(mw.Contents())
      invariant mw.Contents() == if i == 0 then job else Patched(job, nonce2)
      invariant FirstSuccess(job, nonce2, answer, 0) == FirstSuccess(job, nonce2, answer, i)
    {
      var nonce: U32 := (answer + OFFSETS[i]) % 0x1_0000_0000;
      PatchedSized(job, nonce2);
      RetestSame(job, nonce2, nonce);
      var check := TestNonce(mw, nonce2, nonce, dev);
      if check == NONCE_DIFF {
        return Some(nonce);
      }
      i := i + 1;
    }
  }

  /** Testing over a job already patched for the same nonce2 changes neither verdict nor buffers. */
  lemma RetestSame(j: Job, nonce2: U32, nonce: U32)
    requires Sized(j) && InRange(j)
    ensures Patched(Patched(j, nonce2), nonce2) == Patched(j, nonce2)
    ensures Check(Patched(j, nonce2), nonce2, nonce) == Check(j, nonce2, nonce)
  {
    hide Patched, Check;
    PatchedAgain(j, nonce2, nonce2);
    CheckIgnoresHistory(j, [nonce2], nonce2, nonce);
    assert [nonce2][1..] == [];
    assert PatchedAll(j, [nonce2]) == PatchedAll(Patched(j, nonce2), []);
  }

  /** `g_mm_works`. */
  method NewSlots() returns (a: MmWork, b: MmWork, c: MmWork)
    ensures a.Contents() == b.Contents() == c.Contents() == EMPTY_JOB
    ensures fresh(a.Repr() + b.Repr() + c.Repr()) && a.Repr() !! b.Repr() !! c.Repr()
  {
    hide EMPTY_JOB, MmWork.Valid, MmWork.Contents;
    a := new MmWork();
    b := new MmWork();
    c := new MmWork();
  }

  /** Power-on: zeroed slots, an idle hash unit. */
  method PowerOn() returns (m: Manager)
    ensures m.Valid() && m.Abs() == INITIAL
  {
    hide EMPTY_JOB, INITIAL, Consistent, SU.Unit.Valid, Manager.Valid, Manager.Abs, MmWork.Valid;
    var work0, work1, work2 := NewSlots();
    var dev := new SU.Unit();
    m := new Manager(work0, work1, work2, dev);
  }

  lemma PacketConsistent(s: State, w: nat, p: Frame)
    requires Consistent(s) && w < MM_BUF_NUM && PacketInRange(p)
    ensures Consistent(s.(slots := s.slots[w := WithPacket(s.slots[w], p)]))
  {
    hide WithPacket, PacketInRange;
  }

  lemma PatchConsistent(s: State, w: nat, nonce2: U32)
    requires Consistent(s) && w < MM_BUF_NUM
    ensures Consistent(s.(slots := s.slots[w := Patched(s.slots[w], nonce2)]))
  {
    hide Patched;
  }

  lemma InitialConsistent()
    ensures Consistent(INITIAL)
  {
    InitialValid();
  }
}
