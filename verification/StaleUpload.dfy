/** Results that arrive late, in the middle of an upload: when they spoil the job being uploaded. */
module StaleUpload {
  import opened Words
  import opened Options
  import Sha256
  import opened WorkSpec
  import opened Packets
  import opened ManagerSpec
  import opened JobSafety
  import opened Upload
  import Bytes
  import Transcript

  // Jobs that differ only where work generation writes

  predicate InWindow(i: int, at: int, size: int) { at <= i < at + size }

  /** Equal in everything but the counter and the two windows. */
  ghost predicate SameOutside(a: Job, b: Job)
    requires Sized(a) && InRange(a) && Sized(b) && InRange(b)
  {
    && SameNumbers(a, b) && a.jobId == b.jobId && a.target == b.target && a.merkles == b.merkles
    && (forall i :: 0 <= i < COINBASE_SIZE && !InWindow(i, a.nonce2Offset, 4) ==> a.coinbase[i] == b.coinbase[i])
    && (forall i :: 0 <= i < HEADER_SIZE && !InWindow(i, a.merkleOffset, 32) ==> a.header[i] == b.header[i])
  }

  lemma SpliceEqual(a: seq<Byte>, b: seq<Byte>, at: nat, x: seq<Byte>)
    requires |a| == |b| && at + |x| <= |a|
    ensures Bytes.Splice(a, at, x) == Bytes.Splice(b, at, x) <==>
      forall i :: 0 <= i < |a| && !InWindow(i, at, |x|) ==> a[i] == b[i]
  {
    var r, t := Bytes.Splice(a, at, x), Bytes.Splice(b, at, x);
    if r == t {
      forall i | 0 <= i < |a| && !InWindow(i, at, |x|) ensures a[i] == b[i] {
        assert r[i] == a[i] && t[i] == b[i];
      }
    }
    if forall i :: 0 <= i < |a| && !InWindow(i, at, |x|) ==> a[i] == b[i] {
      forall i | 0 <= i < |a| ensures r[i] == t[i] {
        assert !InWindow(i, at, |x|) ==> r[i] == a[i] && t[i] == b[i];
        assert InWindow(i, at, |x|) ==> r[i] == x[i - at] && t[i] == x[i - at];
      }
    }
  }

  /** Being the same job is being equal outside the windows. */
  lemma SameJob(a: Job, b: Job)
    requires Sized(a) && InRange(a) && Sized(b) && InRange(b)
    ensures Essence(a) == Essence(b) <==> SameOutside(a, b)
  {
    if Essence(a) == Essence(b) {
      EssenceOutside(a, b);
    }
    if SameOutside(a, b) {
      OutsideEssence(a, b);
    }
  }

  lemma EssenceOutside(a: Job, b: Job)
    requires Sized(a) && InRange(a) && Sized(b) && InRange(b) && Essence(a) == Essence(b)
    ensures SameOutside(a, b)
  {
    hide Bytes.Splice, MerkleRoot, Store32, Bytes.Swap32, Bytes.Flip;
    SpliceEqual(a.coinbase, b.coinbase, a.nonce2Offset, Store32(Bytes.Swap32(0)));
    assert HeaderWith(a, 0) == HeaderWith(b, 0) && CoinbaseWith(a, 0) == CoinbaseWith(b, 0);
    SameRoot(a, b, 0);
    SpliceEqual(a.header, b.header, a.merkleOffset, Bytes.Flip(MerkleRoot(a, 0)));
  }

  lemma SameRoot(a: Job, b: Job, n: U32)
    requires Sized(a) && InRange(a) && Sized(b) && InRange(b) && CoinbaseWith(a, n) == CoinbaseWith(b, n)
    requires a.coinbaseLen == b.coinbaseLen && a.merkles == b.merkles && a.nmerkles == b.nmerkles
    ensures MerkleRoot(a, n) == MerkleRoot(b, n)
  {
    hide CoinbaseWith, Fold, Sha256.DoubleHash;
  }

  lemma OutsideEssence(a: Job, b: Job)
    requires Sized(a) && InRange(a) && Sized(b) && InRange(b) && SameOutside(a, b)
    ensures Essence(a) == Essence(b)
  {
    hide Bytes.Splice, MerkleRoot, Store32, Bytes.Swap32, Bytes.Flip;
    SpliceEqual(a.coinbase, b.coinbase, a.nonce2Offset, Store32(Bytes.Swap32(0)));
    SameRoot(a, b, 0);
    SpliceEqual(a.header, b.header, a.merkleOffset, Bytes.Flip(MerkleRoot(a, 0)));
  }

  // Packets on top

  /** A STATIC packet that moves one of the windows. */
  predicate Moves(j: Job, p: Frame) {
    Kind(p) == P_STATIC && (Signed(Field(Data(p), 4)) != j.nonce2Offset || Signed(Field(Data(p), 12)) != j.merkleOffset)
  }

  /** The same packet on the same job, windows in place. */
  lemma PacketOnSame(a: Job, b: Job, p: Frame)
    requires Sized(a) && InRange(a) && Sized(b) && InRange(b) && SameOutside(a, b)
    requires PacketInRange(p) && !Moves(a, p)
    ensures SameOutside(WithPacket(a, p), WithPacket(b, p))
  {
    hide Field, Signed;
    if Kind(p) == P_COINBASE {
      CoinbaseOnSame(a.coinbase, b.coinbase, Idx(p), Data(p), a.nonce2Offset);
    } else if Kind(p) == P_HEADER {
      SpliceOnSame(a.header, b.header, 32 * (Idx(p) as int - 1), Data(p), a.merkleOffset, 32);
    }
  }

  lemma SpliceOnSame(a: seq<Byte>, b: seq<Byte>, at: nat, x: seq<Byte>, window: int, size: int)
    requires |a| == |b| && at + |x| <= |a|
    requires forall i :: 0 <= i < |a| && !InWindow(i, window, size) ==> a[i] == b[i]
    ensures var r, t := Bytes.Splice(a, at, x), Bytes.Splice(b, at, x);
      forall i :: 0 <= i < |a| && !InWindow(i, window, size) ==> r[i] == t[i]
  {
    var r, t := Bytes.Splice(a, at, x), Bytes.Splice(b, at, x);
    forall i | 0 <= i < |a| && !InWindow(i, window, size) ensures r[i] == t[i] {
      if InWindow(i, at, |x|) {
        assert r[i] == x[i - at] && t[i] == x[i - at];
      } else {
        assert r[i] == a[i] && t[i] == b[i];
      }
    }
  }

  lemma CoinbaseOnSame(a: seq<Byte>, b: seq<Byte>, idx: Byte, d: Payload, window: int)
    requires |a| == |b| == COINBASE_SIZE && 1 <= idx <= 64
    requires forall i :: 0 <= i < COINBASE_SIZE && !InWindow(i, window, 4) ==> a[i] == b[i]
    ensures var r, t := WithCoinbase(a, idx, d), WithCoinbase(b, idx, d);
      forall i :: 0 <= i < COINBASE_SIZE && !InWindow(i, window, 4) ==> r[i] == t[i]
  {
    hide Bytes.Splice;
    if idx > 1 {
      SpliceOnSame(a, b, 32 * (idx as int - 1), d, window, 4);
    }
  }

  /** A late result puts its work back into the slot; that is still the same job. */
  lemma PatchSame(j: Job, n: U32)
    requires Sized(j) && InRange(j)
    ensures SameOutside(Patched(j, n), j)
  {
    hide Patched;
    EssenceOfPatched(j, n);
    SameJob(Patched(j, n), j);
  }

  lemma SameRefl(j: Job)
    requires Sized(j) && InRange(j)
    ensures SameOutside(j, j)
  {
  }

  lemma SameTrans(a: Job, b: Job, c: Job)
    requires Sized(a) && InRange(a) && Sized(b) && InRange(b) && Sized(c) && InRange(c)
    requires SameOutside(a, b) && SameOutside(b, c)
    ensures SameOutside(a, c)
  {
  }

  // Uploads with late results in between

  /** A late result was collected. */
  ghost predicate AnyStale(s: State, es: Events)
    requires Consistent(s) && AllPossible(es)
  {
    !Undisturbed(s, es, WriteIdx(s))
  }

  /** Once a late result was collected, no STATIC packet moves a window. */
  ghost predicate Settled(s: State, es: Events)
    requires Consistent(s) && AllPossible(es)
  {
    forall k :: 0 <= k < |es| && es[k].Packet? && Fills(es[k].p) ==> SettledAt(s, es, k)
  }

  ghost predicate SettledAt(s: State, es: Events, k: nat)
    requires Consistent(s) && AllPossible(es) && k < |es| && es[k].Packet?
  {
    AnyStale(s, es[..k]) ==> !Moves(SlotWritten(Run(s, es[..k])), es[k].p)
  }

  /** A late result patches the slot being written. */
  lemma StepPatches(s: State, e: Event)
    requires Consistent(s) && Possible(e) && e.Collect? && s.chips[e.chip].mmIdx == WriteIdx(s)
    ensures Consistent(Step(s, e)) && WriteIdx(Step(s, e)) == WriteIdx(s)
    ensures SlotWritten(Step(s, e)) == Patched(SlotWritten(s), s.chips[e.chip].nonce2)
  {
    hide Patched, FirstSuccess, Sized, InRange;
    StepValid(s, e);
  }

  lemma SettledFront(s: State, es: Events, n: nat)
    requires Consistent(s) && AllPossible(es) && n <= |es| && Settled(s, es)
    ensures Settled(s, es[..n])
  {
    hide Run, Consistent, Possible, AnyStale, Moves;
    forall k | 0 <= k < n && es[..n][k].Packet? && Fills(es[..n][k].p) ensures SettledAt(s, es[..n], k) {
      assert SettledAt(s, es, k);
      assert es[..n][..k] == es[..k];
    }
  }

  /** Until the next SET the slot being written holds the job its packets carry, up to the windows,
      whatever late results come in, if the windows stay where they are after the first of them. */
  lemma {:induction false} RunSettled(s: State, es: Events)
    requires Consistent(s) && AllPossible(es) && Settled(s, es)
    requires forall i :: 0 <= i < |es| ==> !IsSet(es[i])
    ensures AllFit(Transcript.FramesOf(es)) && WriteIdx(Run(s, es)) == WriteIdx(s)
    ensures SameOutside(SlotWritten(Run(s, es)), Filled(SlotWritten(s), Transcript.FramesOf(es)))
    decreases |es|
  {
    hide Step, Possible, Sized, InRange, Consistent, SameOutside, Undisturbed, Settled, Run, Filled, AllFit, IsSet, AllPossible, Moves;
    FramesFit(es);
    if es == [] {
      NothingYet(s);
    } else {
      var n := |es| - 1;
      SettledFront(s, es, n);
      PossibleFront(es, n);
      RunSettled(s, es[..n]);
      RunLast(s, es, n);
      FramesFit(es[..n]);
      FilledNext(SlotWritten(s), es, n);
      LastSettled(s, es, n);
    }
  }

  lemma NothingYet(s: State)
    requires Consistent(s)
    ensures AllPossible([]) && Run(s, []) == s && AllFit(Transcript.FramesOf([]))
    ensures SameOutside(SlotWritten(s), Filled(SlotWritten(s), Transcript.FramesOf([])))
  {
    SameRefl(SlotWritten(s));
  }

  lemma LastSettled(s: State, es: Events, n: nat)
    requires Consistent(s) && AllPossible(es) && |es| == n + 1 && Settled(s, es) && !IsSet(es[n])
    requires AllPossible(es[..n]) && Possible(es[n]) && WriteIdx(Run(s, es[..n])) == WriteIdx(s)
    requires AllFit(Transcript.FramesOf(es)) && AllFit(Transcript.FramesOf(es[..n]))
    requires Run(s, es) == Step(Run(s, es[..n]), es[n])
    requires var f := Filled(SlotWritten(s), Transcript.FramesOf(es[..n]));
      && SameOutside(SlotWritten(Run(s, es[..n])), f)
      && Filled(SlotWritten(s), Transcript.FramesOf(es)) == if es[n].Packet? && Fills(es[n].p) then WithPacket(f, es[n].p) else f
    requires forall i :: 0 <= i < |es| ==> !IsSet(es[i])
    ensures WriteIdx(Run(s, es)) == WriteIdx(s)
    ensures SameOutside(SlotWritten(Run(s, es)), Filled(SlotWritten(s), Transcript.FramesOf(es)))
  {
    hide Step, Possible, Sized, InRange, Consistent, SameOutside, Undisturbed, Run, Filled, AllFit, AllPossible, Moves, WithPacket, Fills,
      SlotWritten;
    var t, e := Run(s, es[..n]), es[n];
    var f := Filled(SlotWritten(s), Transcript.FramesOf(es[..n]));
    if e.Packet? && Fills(e.p) {
      assert SettledAt(s, es, n);
      if !AnyStale(s, es[..n]) {
        RunFills(s, es[..n]);
      }
      FitsFilled(e.p);
      PacketStep(t, e, f);
    } else {
      OtherStep(t, e, f);
    }
  }

  /** A job packet on a slot that holds the job, or the same job if no window moves. */
  lemma PacketStep(t: State, e: Event, f: Job)
    requires Consistent(t) && Possible(e) && e.Packet? && Fills(e.p) && !IsSet(e) && PacketInRange(e.p)
    requires Sized(f) && InRange(f) && SameOutside(SlotWritten(t), f) && (SlotWritten(t) == f || !Moves(SlotWritten(t), e.p))
    ensures Consistent(Step(t, e)) && WriteIdx(Step(t, e)) == WriteIdx(t)
    ensures SameOutside(SlotWritten(Step(t, e)), WithPacket(f, e.p))
  {
    hide Step, Possible, Sized, InRange, Consistent, SameOutside, Moves, WithPacket, Fills, SlotWritten;
    StepFills(t, e);
    if SlotWritten(t) == f {
      SameRefl(WithPacket(f, e.p));
    } else {
      PacketOnSame(SlotWritten(t), f, e.p);
    }
  }

  /** Any other event leaves the slot alone or patches it. */
  lemma OtherStep(t: State, e: Event, f: Job)
    requires Consistent(t) && Possible(e) && !IsSet(e) && !(e.Packet? && Fills(e.p))
    requires Sized(f) && InRange(f) && SameOutside(SlotWritten(t), f)
    ensures Consistent(Step(t, e)) && WriteIdx(Step(t, e)) == WriteIdx(t)
    ensures SameOutside(SlotWritten(Step(t, e)), f)
  {
    hide Step, Sized, InRange, SameOutside, Moves, WithPacket, Fills, SlotWritten, PacketFits;
    if e.Collect? && t.chips[e.chip].mmIdx == WriteIdx(t) {
      StepPatches(t, e);
      PatchSame(SlotWritten(t), t.chips[e.chip].nonce2);
      SameTrans(SlotWritten(Step(t, e)), SlotWritten(t), f);
    } else {
      StepFills(t, e);
    }
  }

  lemma FitsFilled(p: Frame)
    requires Possible(Packet(p)) && Fills(p)
    ensures PacketInRange(p)
  {
    hide Accepted, PacketInRange;
  }

  lemma SetSends(t: State, p: Frame)
    requires Consistent(t) && PacketFits(p) && IsSet(Packet(p))
    ensures Consistent(AfterPacket(t, p))
    ensures TaskSent(AfterPacket(t, p)) == Task(HeaderWith(SlotWritten(t), (SetNonce2(p) + 1) % 0x1_0000_0000))
  {
    hide Accepted, HeaderWith, Task, SetNonce2, PacketInRange, Sized, InRange;
    PacketValid(t, p);
    SetSlot(t, p);
    var j, n, m := SlotWritten(t), SetNonce2(p), (SetNonce2(p) + 1) % 0x1_0000_0000;
    EssenceIgnoresCounter(j, m);
    assert j.(nonce2 := n).(nonce2 := m) == j.(nonce2 := m);
  }

  lemma InRangeIgnoresCounter(j: Job, n: U32)
    requires Sized(j) && Sized(j.(nonce2 := n)) && InRange(j.(nonce2 := n))
    ensures InRange(j)
  {
  }

  /** An upload and its SET: the first task sent to a chip is that of the uploaded job, with nonce2
      offset + range + 1, whatever else happened meanwhile, if the windows were settled. */
  lemma UploadDispatched(s: State, es: Events, p: Frame, want: Job)
    requires Consistent(s) && AllPossible(es) && Settled(s, es)
    requires forall i :: 0 <= i < |es| ==> !IsSet(es[i])
    requires PacketFits(p) && IsSet(Packet(p))
    requires Sized(want) && Numbers(want) && Carry(Transcript.FramesOf(es), SlotWritten(s), want)
    ensures InRange(want) && Consistent(AfterPacket(Run(s, es), p))
    ensures TaskSent(AfterPacket(Run(s, es), p)) == Task(HeaderWith(want, (SetNonce2(p) + 1) % 0x1_0000_0000))
  {
    hide Step, Possible, Accepted, Carry, Filled, Consistent, Settled, HeaderWith, Task, SetNonce2, PacketInRange, PacketFits, AfterPacket,
      TaskSent, SameOutside, Run, Essence;
    RunSettled(s, es);
    FramesFit(es);
    JobAssembled(SlotWritten(s), Transcript.FramesOf(es), want);
    var n := SlotWritten(s).nonce2;
    InRangeIgnoresCounter(want, n);
    EssenceIgnoresCounter(want, n);
    var t := Run(s, es);
    SameJob(SlotWritten(t), want.(nonce2 := n));
    EssenceDecides(SlotWritten(t), want.(nonce2 := n), (SetNonce2(p) + 1) % 0x1_0000_0000, 0);
    SetSends(t, p);
  }

  // When late results do change the job: exactly

  /** What reaches the slot being written: a late result's work, or a packet. */
  datatype Touch = Late(nonce2: U32) | Sent(p: Frame)

  predicate TouchesFit(ts: seq<Touch>) { forall i :: 0 <= i < |ts| ==> ts[i].Sent? ==> PacketFits(ts[i].p) }

  function Changed(j: Job, t: Touch): (r: Job)
    requires Sized(j) && InRange(j) && (t.Sent? ==> PacketFits(t.p))
    ensures Sized(r) && InRange(r)
  {
    match t
    case Late(n) => Patched(j, n)
    case Sent(p) => if Fills(p) then WithPacket(j, p) else j
  }

  /** A slot after late results and packets in any order. */
  function Touched(j: Job, ts: seq<Touch>): (r: Job)
    requires Sized(j) && InRange(j) && TouchesFit(ts)
    ensures Sized(r) && InRange(r)
  {
    if ts == [] then j else Changed(Touched(j, ts[..|ts| - 1]), ts[|ts| - 1])
  }

  function PacketsOf(ts: seq<Touch>): seq<Frame> {
    if ts == [] then [] else PacketsOf(ts[..|ts| - 1]) + (match ts[|ts| - 1] case Sent(p) => [p] case Late(_) => [])
  }

  lemma {:induction false} PacketsFit(ts: seq<Touch>)
    requires TouchesFit(ts)
    ensures AllFit(PacketsOf(ts))
    decreases |ts|
  {
    hide PacketFits;
    if ts != [] {
      PacketsFit(ts[..|ts| - 1]);
    }
  }

  /** The slot without the late results. */
  function Meant(j: Job, ts: seq<Touch>): (r: Job)
    requires Sized(j) && InRange(j) && TouchesFit(ts)
    ensures Sized(r) && InRange(r)
  {
    PacketsFit(ts);
    Filled(j, PacketsOf(ts))
  }

  lemma {:induction false} MeantNext(j: Job, ts: seq<Touch>)
    requires Sized(j) && InRange(j) && TouchesFit(ts) && ts != []
    ensures var front, t := Meant(j, ts[..|ts| - 1]), ts[|ts| - 1];
      Meant(j, ts) == if t.Late? then front else Changed(front, t)
  {
    hide WithPacket, Fills, PacketFits, Sized, InRange;
    var ps, t := PacketsOf(ts[..|ts| - 1]), ts[|ts| - 1];
    if t.Sent? {
      assert (ps + [t.p])[..|ps|] == ps;
    } else {
      assert ps + [] == ps;
    }
  }

  /** A packet writes byte i of the coinbase. */
  predicate WritesCoinbase(p: Frame, i: nat) { Is(p, P_COINBASE, i / 32 + 1) || Is(p, P_COINBASE, 1) }

  predicate WritesHeader(p: Frame, i: nat) { Is(p, P_HEADER, i / 32 + 1) }

  /** What late results left at byte i of the coinbase that no later packet wrote over. */
  function CoinbaseLeft(j: Job, ts: seq<Touch>, i: nat): Option<Byte>
    requires Sized(j) && InRange(j) && TouchesFit(ts)
  {
    if ts == [] then None
    else
      var front := ts[..|ts| - 1];
      match ts[|ts| - 1]
      case Late(n) =>
        var at := Touched(j, front).nonce2Offset;
        if InWindow(i, at, 4) then Some(Store32(Bytes.Swap32(n))[i - at]) else CoinbaseLeft(j, front, i)
      case Sent(p) => if WritesCoinbase(p, i) then None else CoinbaseLeft(j, front, i)
  }

  /** And at byte i of the header: a byte of the merkle root they wrote. */
  function HeaderLeft(j: Job, ts: seq<Touch>, i: nat): Option<Byte>
    requires Sized(j) && InRange(j) && TouchesFit(ts)
  {
    if ts == [] then None
    else
      var front := ts[..|ts| - 1];
      match ts[|ts| - 1]
      case Late(n) =>
        var k := Touched(j, front);
        if InWindow(i, k.merkleOffset, 32) then Some(Bytes.Flip(MerkleRoot(k, n))[i - k.merkleOffset]) else HeaderLeft(j, front, i)
      case Sent(p) => if WritesHeader(p, i) then None else HeaderLeft(j, front, i)
  }

  lemma ChunkBytes(a: seq<Byte>, b: seq<Byte>, i: nat)
    requires |a| % 32 == 0 && |b| == |a| && i < |a| && Chunk(a, i / 32) == Chunk(b, i / 32)
    ensures a[i] == b[i]
  {
    hide Chunk;
    ChunkByte(a, i);
    ChunkByte(b, i);
  }

  /** What a packet does to byte i does not depend on the slot. */
  lemma PacketBytes(a: Job, b: Job, p: Frame, i: nat)
    requires Sized(a) && InRange(a) && Sized(b) && InRange(b) && PacketFits(p) && Fills(p)
    ensures i < COINBASE_SIZE ==>
      if WritesCoinbase(p, i) then WithPacket(a, p).coinbase[i] == WithPacket(b, p).coinbase[i] else WithPacket(a, p).coinbase[i] == a.coinbase[i]
    ensures i < HEADER_SIZE ==>
      if WritesHeader(p, i) then WithPacket(a, p).header[i] == WithPacket(b, p).header[i] else WithPacket(a, p).header[i] == a.header[i]
  {
    hide Accepted, Chunk, WithPacket, InRange, PacketInRange;
    if i < COINBASE_SIZE {
      CoinbasePacket(a, p, i / 32);
      CoinbasePacket(b, p, i / 32);
      if WritesCoinbase(p, i) {
        ChunkBytes(WithPacket(a, p).coinbase, WithPacket(b, p).coinbase, i);
      } else {
        ChunkBytes(WithPacket(a, p).coinbase, a.coinbase, i);
      }
    }
    if i < HEADER_SIZE {
      HeaderPacket(a, p, i / 32);
      HeaderPacket(b, p, i / 32);
      if WritesHeader(p, i) {
        ChunkBytes(WithPacket(a, p).header, WithPacket(b, p).header, i);
      } else {
        ChunkBytes(WithPacket(a, p).header, a.header, i);
      }
    }
  }

  function Or(o: Option<Byte>, b: Byte): Byte { if o.Some? then o.value else b }

  /** Each byte is what late results left there or, if they left nothing, what the packets put there. */
  lemma {:induction false} BytesTouched(j: Job, ts: seq<Touch>, i: nat)
    requires Sized(j) && InRange(j) && TouchesFit(ts)
    ensures i < COINBASE_SIZE ==> Touched(j, ts).coinbase[i] == Or(CoinbaseLeft(j, ts, i), Meant(j, ts).coinbase[i])
    ensures i < HEADER_SIZE ==> Touched(j, ts).header[i] == Or(HeaderLeft(j, ts, i), Meant(j, ts).header[i])
    decreases |ts|
  {
    hide Patched, WithPacket, Fills, WritesCoinbase, WritesHeader, PacketFits, InRange, Meant, MerkleRoot, Store32, Bytes.Swap32, Bytes.Flip;
    if ts == [] {
      NothingMeant(j);
    } else {
      var front, t := ts[..|ts| - 1], ts[|ts| - 1];
      BytesTouched(j, front, i);
      MeantNext(j, ts);
      match t
      case Late(n) => PatchedBytes(Touched(j, front), n);
      case Sent(p) =>
        if Fills(p) {
          PacketBytes(Touched(j, front), Meant(j, front), p, i);
          PacketBytes(Meant(j, front), Touched(j, front), p, i);
        } else {
          WritesIsFill(p, i);
        }
    }
  }

  lemma NothingMeant(j: Job)
    requires Sized(j) && InRange(j)
    ensures Meant(j, []) == j
  {
  }

  lemma WritesIsFill(p: Frame, i: nat)
    ensures WritesCoinbase(p, i) || WritesHeader(p, i) ==> Fills(p)
  {
    hide Accepted;
  }

  /** Equal in everything but the two buffers. */
  predicate SameRest(a: Job, b: Job) {
    SameNumbers(a, b) && a.jobId == b.jobId && a.target == b.target && a.merkles == b.merkles && a.nonce2 == b.nonce2
  }

  lemma {:induction false} RestTouched(j: Job, ts: seq<Touch>)
    requires Sized(j) && InRange(j) && TouchesFit(ts)
    ensures SameRest(Touched(j, ts), Meant(j, ts))
    decreases |ts|
  {
    hide Patched, WithPacket, Fills, PacketFits, InRange, Meant, Sized;
    if ts == [] {
      NothingMeant(j);
    } else {
      var front, t := ts[..|ts| - 1], ts[|ts| - 1];
      RestTouched(j, front);
      MeantNext(j, ts);
      match t
      case Late(n) => PatchedBytes(Touched(j, front), n);
      case Sent(p) => if Fills(p) { RestPacket(Touched(j, front), Meant(j, front), p); }
    }
  }

  lemma RestPacket(a: Job, b: Job, p: Frame)
    requires Sized(a) && InRange(a) && Sized(b) && InRange(b) && PacketFits(p) && Fills(p) && SameRest(a, b)
    ensures SameRest(WithPacket(a, p), WithPacket(b, p))
  {
    hide Accepted, PacketInRange, InRange, Field, Bytes.Splice;
  }

  lemma PatchedBytes(j: Job, n: U32)
    requires Sized(j) && InRange(j)
    ensures SameRest(Patched(j, n), j)
    ensures forall i :: 0 <= i < COINBASE_SIZE ==>
      Patched(j, n).coinbase[i] == (if InWindow(i, j.nonce2Offset, 4) then Store32(Bytes.Swap32(n))[i - j.nonce2Offset] else j.coinbase[i])
    ensures forall i :: 0 <= i < HEADER_SIZE ==>
      Patched(j, n).header[i] == (if InWindow(i, j.merkleOffset, 32) then Bytes.Flip(MerkleRoot(j, n))[i - j.merkleOffset] else j.header[i])
  {
    hide MerkleRoot, Store32, Bytes.Swap32, Bytes.Flip;
  }

  /** At byte i, outside the final window, late results left something else than the packets put there. */
  predicate CoinbaseLost(j: Job, ts: seq<Touch>, i: nat)
    requires Sized(j) && InRange(j) && TouchesFit(ts) && i < COINBASE_SIZE
  {
    && !InWindow(i, Meant(j, ts).nonce2Offset, 4)
    && CoinbaseLeft(j, ts, i).Some? && CoinbaseLeft(j, ts, i).value != Meant(j, ts).coinbase[i]
  }

  predicate HeaderLost(j: Job, ts: seq<Touch>, i: nat)
    requires Sized(j) && InRange(j) && TouchesFit(ts) && i < HEADER_SIZE
  {
    && !InWindow(i, Meant(j, ts).merkleOffset, 32)
    && HeaderLeft(j, ts, i).Some? && HeaderLeft(j, ts, i).value != Meant(j, ts).header[i]
  }

  ghost predicate CoinbaseWhole(j: Job, ts: seq<Touch>)
    requires Sized(j) && InRange(j) && TouchesFit(ts)
  {
    forall i: nat :: i < COINBASE_SIZE ==> !CoinbaseLost(j, ts, i)
  }

  ghost predicate HeaderWhole(j: Job, ts: seq<Touch>)
    requires Sized(j) && InRange(j) && TouchesFit(ts)
  {
    forall i: nat :: i < HEADER_SIZE ==> !HeaderLost(j, ts, i)
  }

  lemma WholeBytes(j: Job, ts: seq<Touch>)
    requires Sized(j) && InRange(j) && TouchesFit(ts)
    ensures var a, b := Touched(j, ts), Meant(j, ts);
      && (CoinbaseWhole(j, ts) <==> forall i :: 0 <= i < COINBASE_SIZE && !InWindow(i, a.nonce2Offset, 4) ==> a.coinbase[i] == b.coinbase[i])
      && (HeaderWhole(j, ts) <==> forall i :: 0 <= i < HEADER_SIZE && !InWindow(i, a.merkleOffset, 32) ==> a.header[i] == b.header[i])
  {
    hide Touched, Meant, CoinbaseLeft, HeaderLeft, TouchesFit, InRange;
    var a, b := Touched(j, ts), Meant(j, ts);
    RestTouched(j, ts);
    forall i: nat | i < COINBASE_SIZE
      ensures !CoinbaseLost(j, ts, i) <==> (!InWindow(i, a.nonce2Offset, 4) ==> a.coinbase[i] == b.coinbase[i])
    {
      BytesTouched(j, ts, i);
    }
    forall i: nat | i < HEADER_SIZE
      ensures !HeaderLost(j, ts, i) <==> (!InWindow(i, a.merkleOffset, 32) ==> a.header[i] == b.header[i])
    {
      BytesTouched(j, ts, i);
    }
  }

  /** After any late results and packets, in any order, the slot holds the job it would hold without the
      late results if and only if no byte was lost. */
  lemma LateExact(j: Job, ts: seq<Touch>)
    requires Sized(j) && InRange(j) && TouchesFit(ts)
    ensures SameOutside(Touched(j, ts), Meant(j, ts)) <==> CoinbaseWhole(j, ts) && HeaderWhole(j, ts)
  {
    hide Touched, Meant, CoinbaseWhole, HeaderWhole, TouchesFit, InRange;
    WholeBytes(j, ts);
    RestTouched(j, ts);
  }

  /** The headers made from it are the same if and only if no header byte was lost and the merkle roots
      agree; they agree if no coinbase byte was lost. */
  lemma LateHeader(j: Job, ts: seq<Touch>, m: U32)
    requires Sized(j) && InRange(j) && TouchesFit(ts)
    ensures var a, b := Touched(j, ts), Meant(j, ts);
      && (HeaderWith(a, m) == HeaderWith(b, m) <==> HeaderWhole(j, ts) && MerkleRoot(a, m) == MerkleRoot(b, m))
      && (CoinbaseWhole(j, ts) ==> MerkleRoot(a, m) == MerkleRoot(b, m))
  {
    hide Touched, Meant, CoinbaseWhole, HeaderWhole, TouchesFit, InRange, MerkleRoot, HeaderWith;
    WholeBytes(j, ts);
    RestTouched(j, ts);
    RootsFollow(Touched(j, ts), Meant(j, ts), m);
    HeadersFollow(Touched(j, ts), Meant(j, ts), m);
  }

  lemma RootsFollow(a: Job, b: Job, m: U32)
    requires Sized(a) && InRange(a) && Sized(b) && InRange(b) && SameRest(a, b)
    ensures (forall i :: 0 <= i < COINBASE_SIZE && !InWindow(i, a.nonce2Offset, 4) ==> a.coinbase[i] == b.coinbase[i])
      ==> MerkleRoot(a, m) == MerkleRoot(b, m)
  {
    hide Bytes.Splice, MerkleRoot, Store32, Bytes.Swap32;
    SpliceEqual(a.coinbase, b.coinbase, a.nonce2Offset, Store32(Bytes.Swap32(m)));
    if CoinbaseWith(a, m) == CoinbaseWith(b, m) {
      SameRoot(a, b, m);
    }
  }

  lemma HeadersFollow(a: Job, b: Job, m: U32)
    requires Sized(a) && InRange(a) && Sized(b) && InRange(b) && SameRest(a, b)
    ensures HeaderWith(a, m) == HeaderWith(b, m) <==>
      (forall i :: 0 <= i < HEADER_SIZE && !InWindow(i, a.merkleOffset, 32) ==> a.header[i] == b.header[i])
      && MerkleRoot(a, m) == MerkleRoot(b, m)
  {
    hide MerkleRoot;
    var x, y := Bytes.Flip(MerkleRoot(a, m)), Bytes.Flip(MerkleRoot(b, m));
    if HeaderWith(a, m) == HeaderWith(b, m) {
      assert HeaderWith(a, m)[a.merkleOffset..a.merkleOffset + 32] == x;
      assert HeaderWith(b, m)[a.merkleOffset..a.merkleOffset + 32] == y;
      Bytes.FlipTwice(MerkleRoot(a, m));
      Bytes.FlipTwice(MerkleRoot(b, m));
      forall i | 0 <= i < HEADER_SIZE && !InWindow(i, a.merkleOffset, 32) ensures a.header[i] == b.header[i] {
        assert HeaderWith(a, m)[i] == a.header[i] && HeaderWith(b, m)[i] == b.header[i];
      }
    }
    if MerkleRoot(a, m) == MerkleRoot(b, m) {
      SpliceEqual(a.header, b.header, a.merkleOffset, x);
    }
  }

  // The same over runs

  /** What a run brings to the slot written at its start. */
  function Touches(s: State, es: Events): seq<Touch>
    requires Consistent(s) && AllPossible(es)
  {
    if es == [] then []
    else
      var front := es[..|es| - 1];
      Touches(s, front) + TouchOf(s, Run(s, front), es[|es| - 1])
  }

  function TouchOf(s: State, t: State, e: Event): seq<Touch>
    requires Consistent(t) && Possible(e)
  {
    match e
    case Packet(p) => [Sent(p)]
    case Collect(chip, _) => if t.chips[chip].mmIdx == WriteIdx(s) then [Late(t.chips[chip].nonce2)] else []
    case _ => []
  }

  lemma TouchStep(s: State, t: State, e: Event)
    requires Consistent(s) && Consistent(t) && Possible(e) && !IsSet(e) && WriteIdx(t) == WriteIdx(s)
    ensures Consistent(Step(t, e)) && WriteIdx(Step(t, e)) == WriteIdx(s) && TouchesFit(TouchOf(s, t, e))
    ensures SlotWritten(Step(t, e)) == Touched(SlotWritten(t), TouchOf(s, t, e))
  {
    hide Patched, WithPacket, Fills, Accepted, Sized, InRange, Step, SlotWritten, PacketInRange;
    var j, ts := SlotWritten(t), TouchOf(s, t, e);
    assert ts != [] ==> ts[..|ts| - 1] == [] && Touched(j, []) == j;
    if e.Collect? && t.chips[e.chip].mmIdx == WriteIdx(t) {
      StepPatches(t, e);
    } else {
      StepFills(t, e);
    }
  }

  lemma {:induction false} TouchedAppend(j: Job, ts: seq<Touch>, more: seq<Touch>)
    requires Sized(j) && InRange(j) && TouchesFit(ts) && TouchesFit(more) && |more| <= 1
    ensures TouchesFit(ts + more) && Touched(j, ts + more) == Touched(Touched(j, ts), more)
    ensures PacketsOf(ts + more) == PacketsOf(ts) + PacketsOf(more)
  {
    hide Changed, PacketFits, InRange, Sized;
    if more == [] {
      assert ts + more == ts;
    } else {
      assert (ts + more)[..|ts + more| - 1] == ts && more[..0] == [];
    }
  }

  /** Until the next SET the slot being written is exactly what packets and late results make of it. */
  lemma {:induction false} RunTouches(s: State, es: Events)
    requires Consistent(s) && AllPossible(es) && forall i :: 0 <= i < |es| ==> !IsSet(es[i])
    ensures TouchesFit(Touches(s, es)) && WriteIdx(Run(s, es)) == WriteIdx(s)
    ensures SlotWritten(Run(s, es)) == Touched(SlotWritten(s), Touches(s, es))
    ensures PacketsOf(Touches(s, es)) == Transcript.FramesOf(es)
    decreases |es|
  {
    hide Step, Possible, Sized, InRange, Consistent, Run, IsSet, TouchOf, TouchesFit, Touched, AllPossible, SlotWritten, Changed;
    if es == [] {
      NothingTouched(s);
    } else {
      var n := |es| - 1;
      PossibleFront(es, n);
      RunTouches(s, es[..n]);
      RunLast(s, es, n);
      var t := Run(s, es[..n]);
      TouchStep(s, t, es[n]);
      TouchFrames(s, t, es[n]);
      TouchedAppend(SlotWritten(s), Touches(s, es[..n]), TouchOf(s, t, es[n]));
    }
  }

  lemma NothingTouched(s: State)
    requires Consistent(s)
    ensures AllPossible([]) && Run(s, []) == s && TouchesFit([]) && Touched(SlotWritten(s), []) == SlotWritten(s)
  {
  }

  lemma TouchFrames(s: State, t: State, e: Event)
    requires Consistent(t) && Possible(e)
    ensures |TouchOf(s, t, e)| <= 1
    ensures PacketsOf(TouchOf(s, t, e)) == match e case Packet(p) => [p] case _ => []
  {
    hide Consistent, PacketFits;
    var ts := TouchOf(s, t, e);
    assert ts != [] ==> ts[..|ts| - 1] == [];
  }

  ghost predicate HoldsJob(k: Job, want: Job, j: Job, ts: seq<Touch>)
    requires Sized(k) && InRange(k) && Sized(want) && InRange(want) && Sized(j) && InRange(j) && TouchesFit(ts)
  {
    Essence(k) == Essence(want) <==> CoinbaseWhole(j, ts) && HeaderWhole(j, ts)
  }

  ghost predicate GivesHeader(k: Job, want: Job, m: U32, j: Job, ts: seq<Touch>)
    requires Sized(k) && InRange(k) && Sized(want) && InRange(want) && Sized(j) && InRange(j) && TouchesFit(ts)
  {
    && (HeaderWith(k, m) == HeaderWith(want, m) <==> HeaderWhole(j, ts) && MerkleRoot(k, m) == MerkleRoot(want, m))
    && (CoinbaseWhole(j, ts) ==> MerkleRoot(k, m) == MerkleRoot(want, m))
  }

  /** An upload and its SET, with any late results in between: the slot then current holds the uploaded
      job if and only if no byte was lost, and the header dispatched is its header if and only if no
      header byte was lost and the merkle roots agree. */
  lemma UploadExact(s: State, es: Events, p: Frame, want: Job)
    requires Consistent(s) && AllPossible(es) && forall i :: 0 <= i < |es| ==> !IsSet(es[i])
    requires PacketFits(p) && IsSet(Packet(p))
    requires Sized(want) && Numbers(want) && Carry(Transcript.FramesOf(es), SlotWritten(s), want)
    ensures InRange(want) && TouchesFit(Touches(s, es)) && Consistent(AfterPacket(Run(s, es), p))
    ensures HoldsJob(CurrentSlot(AfterPacket(Run(s, es), p)), want, SlotWritten(s), Touches(s, es))
    ensures GivesHeader(CurrentSlot(AfterPacket(Run(s, es), p)), want, (SetNonce2(p) + 1) % 0x1_0000_0000, SlotWritten(s), Touches(s, es))
  {
    hide Accepted, Carry, Filled, Consistent, HeaderWith, SetNonce2, PacketInRange, PacketFits, AfterPacket, SameOutside, Run, Essence,
      CoinbaseWhole, HeaderWhole, Touched, Touches, TouchesFit, MerkleRoot, SlotWritten, IsSet, InRange, AllFit;
    var j, ts, t := SlotWritten(s), Touches(s, es), Run(s, es);
    RunTouches(s, es);
    PacketsFit(ts);
    JobAssembled(j, Transcript.FramesOf(es), want);
    MeantIs(j, ts);
    InRangeIgnoresCounter(want, j.nonce2);
    SetCurrent(t, p);
    var n, m := SetNonce2(p), (SetNonce2(p) + 1) % 0x1_0000_0000;
    LateExact(j, ts);
    SameJob(Touched(j, ts), Meant(j, ts));
    EssenceIgnoresCounter(want, j.nonce2);
    EssenceIgnoresCounter(Touched(j, ts), n);
    LateHeader(j, ts, m);
    RootIgnoresCounter(want, j.nonce2, m);
    RootIgnoresCounter(Touched(j, ts), n, m);
  }

  function CurrentSlot(s: State): (j: Job)
    requires Consistent(s)
    ensures Sized(j) && InRange(j)
  {
    s.slots[s.cur]
  }

  lemma SetCurrent(t: State, p: Frame)
    requires Consistent(t) && PacketFits(p) && IsSet(Packet(p))
    ensures var u := AfterPacket(t, p); Consistent(u) && CurrentSlot(u) == SlotWritten(t).(nonce2 := SetNonce2(p))
  {
    hide AfterPacket, SetNonce2, IsSet, Consistent, PacketFits;
    SetSlot(t, p);
  }

  lemma MeantIs(j: Job, ts: seq<Touch>)
    requires Sized(j) && InRange(j) && TouchesFit(ts)
    ensures AllFit(PacketsOf(ts)) && Meant(j, ts) == Filled(j, PacketsOf(ts))
  {
    hide AllFit, TouchesFit, InRange;
    PacketsFit(ts);
  }

  lemma RootIgnoresCounter(j: Job, n: U32, m: U32)
    requires Sized(j) && InRange(j)
    ensures Sized(j.(nonce2 := n)) && InRange(j.(nonce2 := n)) && MerkleRoot(j.(nonce2 := n), m) == MerkleRoot(j, m)
  {
    hide Fold, Sha256.DoubleHash, Bytes.Splice, Bytes.Swap32, Store32;
    assert CoinbaseWith(j.(nonce2 := n), m) == CoinbaseWith(j, m);
  }
}
