/** The packets by their bytes: the type numbers, offsets and array bounds of protocol.h and miner.h. */
module Protocol {
  import opened Words
  import opened Options
  import opened WorkSpec
  import opened Packets
  import opened ManagerSpec
  import opened ReportWire
  import opened Transcript
  import Bytes
  import F = Framing

  // In the stream

  /** Noise without an 'H' is skipped. */
  lemma {:induction false} NoiseSkipped(noise: seq<Byte>, rest: seq<Byte>)
    requires forall i :: 0 <= i < |noise| ==> noise[i] != 72
    ensures F.Scan(noise + rest) == F.Scan(rest)
    decreases |noise|
  {
    if noise == [] {
      assert noise + rest == rest;
    } else {
      NoiseSkipped(noise[1..], rest);
      var all := noise + rest;
      assert all[1..] == noise[1..] + rest;
      if |all| < 2 {
        assert rest == [];
      }
    }
  }

  /** A frame that begins with "HR" is found behind it, and what follows is scanned on its own. */
  lemma FrameFound(noise: seq<Byte>, p: Frame, rest: seq<Byte>)
    requires forall i :: 0 <= i < |noise| ==> noise[i] != 72
    requires p[0] == 72 && p[1] == 82
    ensures F.Scan(noise + (p + rest)) == [p] + F.Scan(rest)
  {
    NoiseSkipped(noise, p + rest);
    F.ScanFrame(p, rest);
  }

  /** Every frame the firmware sends is one for a receiver of its kind. */
  lemma SentIsFrame(r: Report, board: Board)
    requires Sendable(r)
    ensures F.Scan(ReportFrame(r, board)) == [ReportFrame(r, board)]
  {
    hide ReportFrame;
    HostReads(r, board);
    var p: Frame := ReportFrame(r, board);
    FrameFound([], p, []);
    assert [] + (p + []) == p;
    assert F.Scan([]) == [];
  }

  // What is answered

  /** Type 10 is answered with the version, 16 with a result or the counters, 18 with the counters, and
      nothing else is answered. */
  lemma RepliesByType(s: State, p: Frame)
    requires Consistent(s) && Accepted(p)
    ensures p[2] == 10 ==> Replies(s, p) == [Version]
    ensures p[2] == 16 && s.consume == s.produce ==> Replies(s, p) == [Status(s.localWork, s.hwWork)]
    ensures p[2] == 16 && s.consume != s.produce ==> |Replies(s, p)| == 1 && Replies(s, p)[0].NonceFound?
    ensures p[2] == 18 ==> Replies(s, p) == [Status(s.localWork, s.hwWork)]
    ensures p[2] !in {10, 16, 18} ==> Replies(s, p) == []
  {
    hide Accepted, SlotsValid, ChipsValid;
  }

  /** A rejected packet changes nothing and is not answered. */
  lemma RejectedIgnored(s: State, p: Frame)
    requires Consistent(s) && !Accepted(p)
    ensures PacketFits(p) && AfterPacket(s, p) == s && Replies(s, p) == []
  {
    hide Accepted;
  }

  // What is changed

  /** Everything a packet may change besides the slot being written is as it was. */
  predicate OnlySlot(s: State, t: State)
    requires Consistent(s) && Consistent(t)
  {
    t == s.(slots := t.slots) && forall k :: 0 <= k < 3 && k != (s.cur + 1) % 3 ==> t.slots[k] == s.slots[k]
  }

  function Written(s: State): Job
    requires Consistent(s)
  {
    s.slots[(s.cur + 1) % 3]
  }

  /** The job packets, types 11 to 15 and 17, go to the slot after the current one. */
  lemma SlotByType(s: State, p: Frame)
    requires Consistent(s) && Accepted(p) && PacketInRange(p) && p[2] in {11, 12, 13, 14, 15, 17}
    ensures Consistent(AfterPacket(s, p)) && OnlySlot(s, AfterPacket(s, p))
    ensures Written(AfterPacket(s, p)) == WithPacket(Written(s), p)
  {
    hide Accepted, WithPacket, PacketInRange;
    PacketValid(s, p);
  }

  /** Type 10 ends the work, 16 takes a result or clears the counters, 19 begins work on the slot that was
      written; no other type changes anything. */
  lemma OthersByType(s: State, p: Frame)
    requires Consistent(s) && Accepted(p) && PacketFits(p) && p[2] !in {11, 12, 13, 14, 15, 17}
    ensures p[2] == 10 ==> AfterPacket(s, p) == s.(newStratum := false)
    ensures p[2] == 16 && s.consume == s.produce ==> AfterPacket(s, p) == s.(localWork := 0, hwWork := 0)
    ensures p[2] == 16 && s.consume != s.produce ==> AfterPacket(s, p) == s.(consume := (s.consume + 1) % 64)
    ensures p[2] == 19 ==> AfterPacket(s, p) == WithSet(s, (s.cur + 1) % 3, Load32(p[13..17]), Load32(p[17..21]))
    ensures p[2] !in {10, 16, 19} ==> AfterPacket(s, p) == s
  {
    hide Accepted, PacketInRange, Load32, ChipsValid, RingValid;
    FieldBytes(p, 8);
    FieldBytes(p, 12);
  }

  /** Work from slot w, whose counter starts at the sum of the two numbers of the packet. */
  function WithSet(s: State, w: nat, offset: U32, range: U32): State
    requires w < |s.slots|
  {
    s.(nonce2Offset := offset, nonce2Range := range, cur := w, newStratum := true,
       slots := s.slots[w := s.slots[w].(nonce2 := (offset + range) % 0x1_0000_0000)])
  }

  /** What a packet writes into a job, from its bytes. */
  lemma JobByBytes(j: Job, p: Frame)
    requires Sized(j) && InRange(j) && PacketInRange(p)
    ensures var t := WithPacket(j, p);
      && (p[2] == 11 ==> t == j.(coinbaseLen := Load32(p[5..9]), nonce2Offset := t.nonce2Offset, nonce2Size := t.nonce2Size,
                                 merkleOffset := t.merkleOffset, nmerkles := t.nmerkles, diff := Load32(p[25..29]), poolNo := Load32(p[29..33])))
      && (p[2] == 11 ==> IsInt(t.nonce2Offset, p[9..13]) && IsInt(t.nonce2Size, p[13..17])
                         && IsInt(t.merkleOffset, p[17..21]) && IsInt(t.nmerkles, p[21..25]))
      && (p[2] == 12 ==> t == j.(jobId := p[5..9]))
      && (p[2] == 14 ==> t == j.(merkles := j.merkles[p[3] as int - 1 := p[5..37]]))
      && (p[2] == 17 ==> t == j.(target := p[5..37]))
  {
    hide Load32, Bytes.Splice;
    FieldBytes(p, 0);
    FieldBytes(p, 4);
    FieldBytes(p, 8);
    FieldBytes(p, 12);
    FieldBytes(p, 16);
    FieldBytes(p, 20);
    FieldBytes(p, 24);
    assert p[2] == 12 ==> Data(p)[..4] == p[5..9] by { assert Data(p)[0..4] == p[5..9]; }
  }

  /** A C `int` in memory: two's complement. */
  predicate IsInt(n: int, b: seq<Byte>)
    requires |b| == 4
  {
    -0x8000_0000 <= n < 0x8000_0000 && (n - Load32(b) as int) % 0x1_0000_0000 == 0
  }

  /** The buffers: byte i of the coinbase and of the header after a packet. */
  lemma BuffersByBytes(j: Job, p: Frame, i: nat)
    requires Sized(j) && InRange(j) && PacketInRange(p)
    ensures p[2] == 13 && i < 2048 ==>
      WithPacket(j, p) == j.(coinbase := WithPacket(j, p).coinbase)
      && WithPacket(j, p).coinbase[i] == (if i / 32 == p[3] as int - 1 then p[5 + i % 32] else if p[3] == 1 then 0 else j.coinbase[i])
    ensures p[2] == 15 && i < 128 ==>
      WithPacket(j, p) == j.(header := WithPacket(j, p).header)
      && WithPacket(j, p).header[i] == (if i / 32 == p[3] as int - 1 then p[5 + i % 32] else j.header[i])
  {
    hide Field, Bytes.Splice;
    var k: int := p[3] as int - 1;
    if p[2] == 13 && i < 2048 {
      SplicedAt(if p[3] == 1 then seq(COINBASE_SIZE, _ => 0) else j.coinbase, k, Data(p), i);
    } else if p[2] == 15 && i < 128 {
      SplicedAt(j.header, k, Data(p), i);
    }
  }

  lemma SplicedAt(bs: seq<Byte>, k: nat, d: Payload, i: nat)
    requires 32 * k + 32 <= |bs| && i < |bs|
    ensures Bytes.Splice(bs, 32 * k, d)[i] == if i / 32 == k then d[i % 32] else bs[i]
  {
    var r := Bytes.Splice(bs, 32 * k, d);
    if i / 32 == k {
      assert i == 32 * k + i % 32;
      assert r[32 * k..32 * k + 32] == d;
    } else if i < 32 * k {
      assert r[..32 * k] == bs[..32 * k];
    } else {
      assert r[32 * k + 32..] == bs[32 * k + 32..];
    }
  }

  // What stays in memory

  /** A packet is out of range exactly when it would write, or make work generation write or read, beyond
      an array: 2048 bytes of coinbase, 20 branch entries, 128 bytes of header. */
  lemma RangeByBytes(p: Frame)
    ensures p[2] == 13 ==> (PacketInRange(p) <==> p[3] >= 1 && 32 * (p[3] as int - 1) + 32 <= 2048)
    ensures p[2] == 14 ==> (PacketInRange(p) <==> p[3] >= 1 && p[3] as int - 1 < 20)
    ensures p[2] == 15 ==> (PacketInRange(p) <==> p[3] >= 1 && 32 * (p[3] as int - 1) + 32 <= 128)
    ensures p[2] !in {11, 13, 14, 15} ==> PacketInRange(p)
  {
  }

  lemma StaticRange(p: Frame, offset: int, merkle: int, n: int)
    requires p[2] == 11 && IsInt(offset, p[9..13]) && IsInt(merkle, p[17..21]) && IsInt(n, p[21..25])
    ensures PacketInRange(p) <==>
      Load32(p[5..9]) <= 2048 && 0 <= offset && offset + 4 <= 2048 && 0 <= merkle && merkle + 32 <= 128 && n <= 20
  {
    hide Load32;
    FieldBytes(p, 0);
    FieldBytes(p, 4);
    FieldBytes(p, 12);
    FieldBytes(p, 16);
    IntIs(offset, Load32(p[9..13]));
    IntIs(merkle, Load32(p[17..21]));
    IntIs(n, Load32(p[21..25]));
  }

  lemma IntIs(n: int, u: U32)
    requires -0x8000_0000 <= n < 0x8000_0000 && (n - u as int) % 0x1_0000_0000 == 0
    ensures n == Signed(u)
  {
  }
}
