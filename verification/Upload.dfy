/** How a job is put together in a slot from the packets that carry it, and what can disturb it. */
module Upload {
  import opened Words
  import opened Options
  import opened WorkSpec
  import opened Packets
  import opened ManagerSpec
  import opened JobSafety
  import Bytes
  import Transcript

  predicate Fills(p: Frame) { Accepted(p) && IsJobKind(Kind(p)) }

  predicate AllFit(ps: seq<Frame>) { forall i :: 0 <= i < |ps| ==> PacketFits(ps[i]) }

  /** A slot after packets were written to it, each over what the ones before left. */
  function Filled(j: Job, ps: seq<Frame>): (r: Job)
    requires Sized(j) && InRange(j) && AllFit(ps)
    ensures Sized(r) && InRange(r)
    decreases |ps|
  {
    if ps == [] then j
    else
      var n := |ps| - 1;
      var f := Filled(j, ps[..n]);
      if Fills(ps[n]) then WithPacket(f, ps[n]) else f
  }

  // What each part of the slot then holds, told from the packets alone

  predicate Is(p: Frame, kind: Byte, idx: int) { Accepted(p) && Kind(p) == kind && Idx(p) as int == idx }

  function Chunk(bs: seq<Byte>, c: nat): (d: Payload)
    requires 32 * c + 32 <= |bs|
  {
    bs[32 * c..32 * c + 32]
  }

  /** Chunk c of the coinbase: the last packet that carried it, or zeros if a first packet came later. */
  function CoinbaseChunk(j: Job, ps: seq<Frame>, c: nat): Payload
    requires Sized(j) && c < 64
    decreases |ps|
  {
    if ps == [] then Chunk(j.coinbase, c)
    else
      var p := ps[|ps| - 1];
      if Is(p, P_COINBASE, c + 1) then Data(p)
      else if Is(p, P_COINBASE, 1) then seq(32, _ => 0)
      else CoinbaseChunk(j, ps[..|ps| - 1], c)
  }

  /** Chunk c of the header: the last packet that carried it. */
  function HeaderChunk(j: Job, ps: seq<Frame>, c: nat): Payload
    requires Sized(j) && c < 4
    decreases |ps|
  {
    if ps == [] then Chunk(j.header, c)
    else
      var p := ps[|ps| - 1];
      if Is(p, P_HEADER, c + 1) then Data(p) else HeaderChunk(j, ps[..|ps| - 1], c)
  }

  function MerkleAt(j: Job, ps: seq<Frame>, i: nat): Payload
    requires Sized(j) && i < MERKLES_COUNT
    decreases |ps|
  {
    if ps == [] then j.merkles[i]
    else
      var p := ps[|ps| - 1];
      if Is(p, P_MERKLES, i + 1) then Data(p) else MerkleAt(j, ps[..|ps| - 1], i)
  }

  /** The last accepted packet of a kind. */
  function LastOf(ps: seq<Frame>, kind: Byte): Option<Frame>
    decreases |ps|
  {
    if ps == [] then None
    else
      var p := ps[|ps| - 1];
      if Accepted(p) && Kind(p) == kind then Some(p) else LastOf(ps[..|ps| - 1], kind)
  }

  lemma SpliceChunk(bs: seq<Byte>, k: nat, d: Payload, c: nat)
    requires |bs| % 32 == 0 && 32 * k + 32 <= |bs| && 32 * c + 32 <= |bs|
    ensures Chunk(Bytes.Splice(bs, 32 * k, d), c) == if c == k then d else Chunk(bs, c)
  {
    var r := Bytes.Splice(bs, 32 * k, d);
    forall i | 0 <= i < 32 ensures Chunk(r, c)[i] == (if c == k then d else Chunk(bs, c))[i] {
      assert r[32 * c + i] == if c < k then bs[32 * c + i] else if c == k then d[i] else bs[32 * c + i];
    }
  }

  lemma CoinbasePacket(j: Job, p: Frame, c: nat)
    requires Sized(j) && InRange(j) && PacketFits(p) && Fills(p) && c < 64
    ensures Chunk(WithPacket(j, p).coinbase, c) ==
      if Is(p, P_COINBASE, c + 1) then Data(p) else if Is(p, P_COINBASE, 1) then seq(32, _ => 0) else Chunk(j.coinbase, c)
  {
    hide Accepted, Bytes.Splice, Field;
    if Kind(p) == P_COINBASE {
      var clear := if Idx(p) == 1 then seq(COINBASE_SIZE, _ => 0) else j.coinbase;
      SpliceChunk(clear, Idx(p) as int - 1, Data(p), c);
      assert Idx(p) == 1 ==> Chunk(clear, c) == seq(32, _ => 0);
    }
  }

  lemma {:induction false} CoinbaseFilled(j: Job, ps: seq<Frame>, c: nat)
    requires Sized(j) && InRange(j) && AllFit(ps) && c < 64
    ensures Chunk(Filled(j, ps).coinbase, c) == CoinbaseChunk(j, ps, c)
    decreases |ps|
  {
    hide WithPacket, Accepted, InRange, PacketInRange, Chunk;
    if ps != [] {
      var n := |ps| - 1;
      CoinbaseFilled(j, ps[..n], c);
      if Fills(ps[n]) {
        CoinbasePacket(Filled(j, ps[..n]), ps[n], c);
      }
    }
  }

  lemma HeaderPacket(j: Job, p: Frame, c: nat)
    requires Sized(j) && InRange(j) && PacketFits(p) && Fills(p) && c < 4
    ensures Chunk(WithPacket(j, p).header, c) == if Is(p, P_HEADER, c + 1) then Data(p) else Chunk(j.header, c)
  {
    hide Accepted, Bytes.Splice, Field;
    if Kind(p) == P_HEADER {
      SpliceChunk(j.header, Idx(p) as int - 1, Data(p), c);
    }
  }

  lemma {:induction false} HeaderFilled(j: Job, ps: seq<Frame>, c: nat)
    requires Sized(j) && InRange(j) && AllFit(ps) && c < 4
    ensures Chunk(Filled(j, ps).header, c) == HeaderChunk(j, ps, c)
    decreases |ps|
  {
    hide WithPacket, Accepted, InRange, PacketInRange, Chunk;
    if ps != [] {
      var n := |ps| - 1;
      HeaderFilled(j, ps[..n], c);
      if Fills(ps[n]) {
        HeaderPacket(Filled(j, ps[..n]), ps[n], c);
      }
    }
  }

  lemma MerklePacket(j: Job, p: Frame, i: nat)
    requires Sized(j) && InRange(j) && PacketFits(p) && Fills(p) && i < MERKLES_COUNT
    ensures WithPacket(j, p).merkles[i] == if Is(p, P_MERKLES, i + 1) then Data(p) else j.merkles[i]
  {
    hide Accepted, Bytes.Splice, Field;
  }

  lemma {:induction false} MerkleFilled(j: Job, ps: seq<Frame>, i: nat)
    requires Sized(j) && InRange(j) && AllFit(ps) && i < MERKLES_COUNT
    ensures Filled(j, ps).merkles[i] == MerkleAt(j, ps, i)
    decreases |ps|
  {
    hide WithPacket, Accepted, InRange, PacketInRange;
    if ps != [] {
      var n := |ps| - 1;
      MerkleFilled(j, ps[..n], i);
      if Fills(ps[n]) {
        MerklePacket(Filled(j, ps[..n]), ps[n], i);
      }
    }
  }

  /** A C `int` as the four bytes that carry it. */
  function Unsigned(n: int): U32
    requires -0x8000_0000 <= n < 0x8000_0000
  {
    if n < 0 then n + 0x1_0000_0000 else n
  }

  predicate IsInt(n: int) { -0x8000_0000 <= n < 0x8000_0000 }

  /** The numbers of a job fit the fields of a STATIC packet. */
  predicate Numbers(j: Job) { IsInt(j.nonce2Offset) && IsInt(j.nonce2Size) && IsInt(j.merkleOffset) && IsInt(j.nmerkles) }

  function StaticFields(j: Job): (d: seq<Byte>)
    requires Numbers(j)
    ensures |d| == 28
  {
    Store32(j.coinbaseLen) + Store32(Unsigned(j.nonce2Offset)) + Store32(Unsigned(j.nonce2Size)) + Store32(Unsigned(j.merkleOffset))
    + Store32(Unsigned(j.nmerkles)) + Store32(j.diff) + Store32(j.poolNo)
  }

  /** The numbers of two jobs are the same. */
  predicate SameNumbers(a: Job, b: Job) {
    && a.coinbaseLen == b.coinbaseLen && a.nonce2Offset == b.nonce2Offset && a.nonce2Size == b.nonce2Size
    && a.merkleOffset == b.merkleOffset && a.nmerkles == b.nmerkles && a.diff == b.diff && a.poolNo == b.poolNo
  }

  lemma SignedBack(n: int)
    requires IsInt(n)
    ensures Signed(Unsigned(n)) == n
  {
  }

  /** A STATIC packet with the numbers of a job gives a slot those numbers. */
  lemma StaticPacket(j: Job, p: Frame, want: Job)
    requires Sized(j) && InRange(j) && PacketInRange(p) && Kind(p) == P_STATIC
    requires Numbers(want) && Data(p)[..28] == StaticFields(want)
    ensures SameNumbers(WithPacket(j, p), want)
  {
    hide Store32, Load32, Signed, Unsigned;
    var d := Data(p);
    var f := StaticFields(want);
    FieldAt(d, f, 0, want.coinbaseLen);
    FieldAt(d, f, 4, Unsigned(want.nonce2Offset));
    FieldAt(d, f, 8, Unsigned(want.nonce2Size));
    FieldAt(d, f, 12, Unsigned(want.merkleOffset));
    FieldAt(d, f, 16, Unsigned(want.nmerkles));
    FieldAt(d, f, 20, want.diff);
    FieldAt(d, f, 24, want.poolNo);
    SignedBack(want.nonce2Offset);
    SignedBack(want.nonce2Size);
    SignedBack(want.merkleOffset);
    SignedBack(want.nmerkles);
  }

  lemma FieldAt(d: Payload, f: seq<Byte>, at: nat, n: U32)
    requires |f| == 28 && d[..28] == f && at + 4 <= 28 && f[at..at + 4] == Store32(n)
    ensures Field(d, at) == n
  {
    hide Store32, Load32;
    assert d[at..at + 4] == d[..28][at..at + 4];
    LoadStore(n);
  }

  /** What the single packets leave: a packet of another kind does not touch these parts. */
  lemma {:induction false} SinglesFilled(j: Job, ps: seq<Frame>)
    requires Sized(j) && InRange(j) && AllFit(ps)
    ensures Filled(j, ps).nonce2 == j.nonce2
    ensures Filled(j, ps).jobId == match LastOf(ps, P_JOB_ID) case Some(p) => Data(p)[..4] case None => j.jobId
    ensures Filled(j, ps).target == match LastOf(ps, P_TARGET) case Some(p) => Data(p) case None => j.target
    decreases |ps|
  {
    hide Accepted, PacketInRange, InRange, Field, Bytes.Splice;
    if ps != [] {
      SinglesFilled(j, ps[..|ps| - 1]);
    }
  }

  lemma {:induction false} NumbersFilled(j: Job, ps: seq<Frame>, want: Job)
    requires Sized(j) && InRange(j) && AllFit(ps) && Numbers(want)
    requires match LastOf(ps, P_STATIC) case Some(p) => Data(p)[..28] == StaticFields(want) case None => SameNumbers(j, want)
    ensures SameNumbers(Filled(j, ps), want)
    decreases |ps|
  {
    hide Accepted, InRange, StaticFields, Field, Bytes.Splice;
    if ps != [] {
      var n := |ps| - 1;
      var p := ps[n];
      if Accepted(p) && Kind(p) == P_STATIC {
        StaticPacket(Filled(j, ps[..n]), p, want);
      } else {
        NumbersFilled(j, ps[..n], want);
      }
    }
  }

  /** The packets carry a job: what they last said of each part is that part. */
  ghost predicate Carry(ps: seq<Frame>, j: Job, want: Job)
    requires Sized(j) && Sized(want) && Numbers(want)
  {
    && (match LastOf(ps, P_STATIC) case Some(p) => Data(p)[..28] == StaticFields(want) case None => SameNumbers(j, want))
    && (match LastOf(ps, P_JOB_ID) case Some(p) => Data(p)[..4] == want.jobId case None => j.jobId == want.jobId)
    && (match LastOf(ps, P_TARGET) case Some(p) => Data(p) == want.target case None => j.target == want.target)
    && (forall c: nat :: c < 64 ==> CoinbaseChunk(j, ps, c) == Chunk(want.coinbase, c))
    && (forall c: nat :: c < 4 ==> HeaderChunk(j, ps, c) == Chunk(want.header, c))
    && (forall i: nat :: i < MERKLES_COUNT ==> MerkleAt(j, ps, i) == want.merkles[i])
  }

  lemma ChunkByte(bs: seq<Byte>, i: nat)
    requires |bs| % 32 == 0 && i < |bs|
    ensures 32 * (i / 32) + 32 <= |bs| && bs[i] == Chunk(bs, i / 32)[i % 32]
  {
  }

  lemma SameChunks(a: seq<Byte>, b: seq<Byte>, n: nat)
    requires |a| == |b| == 32 * n && forall c: nat :: c < n ==> Chunk(a, c) == Chunk(b, c)
    ensures a == b
  {
    hide Chunk;
    forall i: nat | i < |a| ensures a[i] == b[i] {
      ChunkByte(a, i);
      ChunkByte(b, i);
      ChunkAgrees(a, b, n, i / 32);
    }
  }

  lemma ChunkAgrees(a: seq<Byte>, b: seq<Byte>, n: nat, c: nat)
    requires |a| == |b| == 32 * n && c < n && forall c: nat :: c < n ==> Chunk(a, c) == Chunk(b, c)
    ensures Chunk(a, c) == Chunk(b, c)
  {
    hide Chunk;
  }

  /** In whatever order the packets of a job come, a slot that took them holds that job; its nonce2
      counter comes later, with the SET. */
  lemma JobAssembled(j: Job, ps: seq<Frame>, want: Job)
    requires Sized(j) && InRange(j) && AllFit(ps) && Sized(want) && Numbers(want)
    requires Carry(ps, j, want)
    ensures Filled(j, ps) == want.(nonce2 := j.nonce2)
  {
    hide Filled, LastOf, CoinbaseChunk, HeaderChunk, MerkleAt, Chunk, StaticFields, InRange, AllFit;
    var r := Filled(j, ps);
    NumbersFilled(j, ps, want);
    SinglesFilled(j, ps);
    forall c: nat | c < 64 ensures Chunk(r.coinbase, c) == Chunk(want.coinbase, c) {
      CoinbaseFilled(j, ps, c);
    }
    SameChunks(r.coinbase, want.coinbase, 64);
    forall c: nat | c < 4 ensures Chunk(r.header, c) == Chunk(want.header, c) {
      HeaderFilled(j, ps, c);
    }
    SameChunks(r.header, want.header, 4);
    forall i: nat | i < MERKLES_COUNT ensures r.merkles[i] == want.merkles[i] {
      MerkleFilled(j, ps, i);
    }
    assert r.merkles == want.merkles;
  }

  // Uploads in the course of a run

  /** No chip is collected whose record names slot w. */
  ghost predicate Undisturbed(s: State, es: Events, w: nat)
    requires Consistent(s) && AllPossible(es)
  {
    forall i :: 0 <= i < |es| && es[i].Collect? ==> !Stale(s, es, i, w)
  }

  predicate Stale(s: State, es: Events, i: nat, w: nat)
    requires Consistent(s) && AllPossible(es) && i < |es| && es[i].Collect?
  {
    Run(s, es[..i]).chips[es[i].chip].mmIdx == w
  }

  lemma StepFills(s: State, e: Event)
    requires Consistent(s) && Possible(e) && !IsSet(e)
    requires e.Collect? ==> s.chips[e.chip].mmIdx != WriteIdx(s)
    ensures Consistent(Step(s, e)) && WriteIdx(Step(s, e)) == WriteIdx(s)
    ensures SlotWritten(Step(s, e)) == if e.Packet? && Fills(e.p) then WithPacket(SlotWritten(s), e.p) else SlotWritten(s)
  {
    hide Patched, WithPacket, FirstSuccess, Accepted, Sized, InRange, PacketInRange;
    StepValid(s, e);
  }

  lemma RunLast(s: State, es: Events, n: nat)
    requires Consistent(s) && AllPossible(es) && |es| == n + 1
    ensures Run(s, es) == Step(Run(s, es[..n]), es[n])
  {
    hide Step, Consistent, Possible;
    assert es == es[..n] + [es[n]];
    RunAppend(s, es[..n], [es[n]]);
    Transcript.OneEvent(Run(s, es[..n]), es[n]);
  }

  lemma NoRun(s: State)
    requires Consistent(s)
    ensures Run(s, []) == s
  {
  }

  lemma PossibleFront(es: Events, n: nat)
    requires AllPossible(es) && n < |es|
    ensures AllPossible(es[..n]) && Possible(es[n])
  {
    hide Possible;
  }

  lemma WriteIdxBelow(s: State)
    requires Consistent(s)
    ensures WriteIdx(s) < MM_BUF_NUM && |s.slots| == MM_BUF_NUM && Sized(s.slots[WriteIdx(s)]) && InRange(s.slots[WriteIdx(s)])
  {
  }

  lemma {:induction false} FramesFit(es: Events)
    requires AllPossible(es)
    ensures AllFit(Transcript.FramesOf(es))
    decreases |es|
  {
    hide PacketFits;
    if es != [] {
      FramesFit(es[..|es| - 1]);
      assert Possible(es[|es| - 1]);
    }
  }

  /** Until the next SET the slot being written holds exactly what the accepted job packets put there,
      whatever is dispatched, polled or collected meanwhile; but no stale chip may be collected. */
  lemma {:induction false} RunFills(s: State, es: Events)
    requires Consistent(s) && AllPossible(es) && Undisturbed(s, es, WriteIdx(s))
    requires forall i :: 0 <= i < |es| ==> !IsSet(es[i])
    ensures AllFit(Transcript.FramesOf(es)) && WriteIdx(Run(s, es)) == WriteIdx(s)
    ensures SlotWritten(Run(s, es)) == Filled(SlotWritten(s), Transcript.FramesOf(es))
    decreases |es|
  {
    hide Step, Possible, Sized, InRange, Consistent, WithPacket, Fills, IsSet;
    FramesFit(es);
    WriteIdxBelow(s);
    if es != [] {
      var n := |es| - 1;
      var front := es[..n];
      forall i | 0 <= i < n && front[i].Collect? ensures !Stale(s, front, i, WriteIdx(s)) {
        assert !Stale(s, es, i, WriteIdx(s));
        assert front[..i] == es[..i];
      }
      RunFills(s, front);
      RunLast(s, es, n);
      assert es[n].Collect? ==> !Stale(s, es, n, WriteIdx(s));
      StepFills(Run(s, front), es[n]);
      FilledNext(SlotWritten(s), es, n);
    }
  }

  lemma FilledNext(j: Job, es: Events, n: nat)
    requires Sized(j) && InRange(j) && AllPossible(es) && |es| == n + 1
    requires AllFit(Transcript.FramesOf(es)) && AllFit(Transcript.FramesOf(es[..n]))
    ensures var f := Filled(j, Transcript.FramesOf(es[..n]));
      Filled(j, Transcript.FramesOf(es)) == if es[n].Packet? && Fills(es[n].p) then WithPacket(f, es[n].p) else f
  {
    hide WithPacket, Fills, Sized, InRange;
    var ps := Transcript.FramesOf(es[..n]);
    if es[n].Packet? {
      var p := es[n].p;
      assert (ps + [p])[..|ps|] == ps;
    } else {
      assert ps + [] == ps;
    }
  }

  /** The slot being written. */
  function SlotWritten(s: State): (j: Job)
    requires Consistent(s)
    ensures Sized(j) && InRange(j)
  {
    s.slots[WriteIdx(s)]
  }

  /** A SET makes the slot being written current and starts its counter. */
  lemma SetSlot(t: State, p: Frame)
    requires Consistent(t) && PacketFits(p) && IsSet(Packet(p))
    ensures var u := AfterPacket(t, p);
      Consistent(u) && u.cur == WriteIdx(t) && u.slots[u.cur] == SlotWritten(t).(nonce2 := SetNonce2(p))
  {
    hide Accepted, SetNonce2, PacketInRange, Sized, InRange;
    PacketValid(t, p);
  }
}
