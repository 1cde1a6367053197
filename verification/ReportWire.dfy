/** The answers to a poll on the wire. */
module ReportWire {
  import opened Words
  import opened Crc16
  import opened Packets
  import opened ManagerSpec
  import opened WorkSpec
  import Miner
  import Bytes

  /** What `be200_polling` can report: chips are numbered below 80, job ids have four bytes. */
  predicate Sendable(r: Report) {
    r.NonceFound? ==> r.idx < CHIP_NUMBER && |r.jobId| == 4
  }

  /** MM_VERSION, fixed when the firmware is built. */
  type VersionText = v: seq<Byte> | |v| == 15 witness seq(15, _ => 0)

  /** What a frame says besides the report: temperatures, fan speeds and the version. */
  datatype Board = Board(temp: U32, fan: U32, version: VersionText)

  /** The data field: for a nonce the chip, pool, nonce2, nonce and job id, for a status the
      temperatures, the fan speeds and the two counters as 32-bit numbers, or the version. */
  function ReportData(r: Report, board: Board): Payload
    requires Sendable(r)
  {
    match r
    case NonceFound(idx, poolNo, nonce2, nonce, jobId) =>
      Store32(idx) + Store32(poolNo) + Store32(nonce2) + Store32(nonce) + jobId + seq(12, _ => 0)
    case Status(localWork, hwWork) =>
      Store32(board.temp) + Store32(board.fan) + Store32(localWork % 0x1_0000_0000) + Store32(hwWork % 0x1_0000_0000) + seq(16, _ => 0)
    case Version => board.version + seq(17, _ => 0)
  }

  function ReportKind(r: Report): Byte {
    match r case NonceFound(_, _, _, _, _) => P_NONCE case Status(_, _) => P_STATUS case Version => P_ACKDETECT
  }

  /** A frame that carries a report. */
  function ReportFrame(r: Report, board: Board): Frame
    requires Sendable(r)
  {
    Encoded(ReportKind(r), 1, 1, ReportData(r, board))
  }

  ghost predicate Carries(p: Frame, r: Report) {
    Sendable(r) && exists board :: p == ReportFrame(r, board)
  }

  /** The frames carry the reports, one for one. */
  ghost predicate AllCarry(ps: seq<Frame>, rs: seq<Report>) {
    |ps| == |rs| && forall i :: 0 <= i < |ps| ==> Carries(ps[i], rs[i])
  }

  /** In a consistent state every answer can be sent. */
  lemma RepliesSendable(s: State, p: Frame)
    requires Consistent(s)
    ensures forall i :: 0 <= i < |Replies(s, p)| ==> Sendable(Replies(s, p)[i])
  {
    hide InRange, Accepted;
  }

  /** `memcpy` of the next four-byte field into a buffer of which the rest is still clear. */
  method AppendField(buf: array<Byte>, at: nat, ghost done: seq<Byte>, field: seq<Byte>)
    requires |field| == 4 && buf.Length == P_DATA_LEN && |done| == at && at + 4 <= P_DATA_LEN
    requires buf[..] == done + seq(P_DATA_LEN - at, _ => 0)
    modifies buf
    ensures buf[..] == done + field + seq(P_DATA_LEN - at - 4, _ => 0)
  {
    Miner.CopyTo(buf, at, field);
  }

  /** The buffer of a nonce report, filled field by field. */
  method FillNonce(buf: array<Byte>, r: Report)
    requires Sendable(r) && r.NonceFound? && buf.Length == P_DATA_LEN
    requires forall i :: 0 <= i < P_DATA_LEN ==> buf[i] == 0
    modifies buf
    ensures forall board :: buf[..] == ReportData(r, board)
  {
    hide Store32;
    assert buf[..] == [] + seq(32, _ => 0);
    AppendField(buf, 0, [], Store32(r.idx));
    ghost var a := [] + Store32(r.idx);
    AppendField(buf, 4, a, Store32(r.poolNo));
    ghost var b := a + Store32(r.poolNo);
    AppendField(buf, 8, b, Store32(r.nonce2));
    ghost var c := b + Store32(r.nonce2);
    AppendField(buf, 12, c, Store32(r.nonce));
    AppendField(buf, 16, c + Store32(r.nonce), r.jobId);
    assert [] + Store32(r.idx) == Store32(r.idx);
  }

  /** `send_pkg` of a report. */
  method SendReport(r: Report, board: Board) returns (p: Frame)
    requires Sendable(r)
    ensures p == ReportFrame(r, board)
  {
    hide Store32, Crc, Encoded;
    match r
    case NonceFound(_, _, _, _, _) =>
      var buf := new Byte[P_DATA_LEN](_ => 0);
      FillNonce(buf, r);
      var data := buf[..];
      assert data[..32] == data && data + seq(0, _ => 0) == data;
      p := EncodePkg(P_NONCE, data, 32, 1, 1, board.temp, board.fan, 0, 0);
    case Status(localWork, hwWork) =>
      p := EncodePkg(P_STATUS, [], 0, 1, 1, board.temp, board.fan, localWork % 0x1_0000_0000, hwWork % 0x1_0000_0000);
    case Version =>
      assert board.version[..15] == board.version;
      p := EncodePkg(P_ACKDETECT, board.version, 15, 1, 1, board.temp, board.fan, 0, 0);
  }

  /** Sends the replies, one after the other, whatever the sensors read. */
  method SendAll(rs: seq<Report>) returns (ps: seq<Frame>)
    requires forall i :: 0 <= i < |rs| ==> Sendable(rs[i])
    ensures AllCarry(ps, rs)
  {
    hide ReportFrame;
    ps := [];
    for i := 0 to |rs|
      invariant AllCarry(ps, rs[..i])
    {
      var board: Board :| true;
      var p := SendReport(rs[i], board);
      assert Carries(p, rs[i]);
      ps := ps + [p];
    }
    assert rs[..|rs|] == rs;
  }

  /** A host reads every field of the report back from the bytes of the frame: the type 53 for a nonce,
      54 for a status and 55 for the version, then the fields, then zeros, and last the CRC, its low byte
      first. */
  lemma HostReads(r: Report, board: Board)
    requires Sendable(r)
    ensures var p := ReportFrame(r, board);
      && p[0] == 72 && p[1] == 82 && p[3] == 1 && p[4] == 1
      && Pair(BitsOf(p[38]), BitsOf(p[37])) == Crc(p[5..37])
      && match r
         case NonceFound(idx, poolNo, nonce2, nonce, jobId) =>
           p[2] == 53 && Load32(p[5..9]) == idx && Load32(p[9..13]) == poolNo && Load32(p[13..17]) == nonce2
           && Load32(p[17..21]) == nonce && p[21..25] == jobId && p[25..37] == seq(12, _ => 0)
         case Status(localWork, hwWork) =>
           p[2] == 54 && Load32(p[5..9]) == board.temp && Load32(p[9..13]) == board.fan
           && Load32(p[13..17]) == localWork % 0x1_0000_0000 && Load32(p[17..21]) == hwWork % 0x1_0000_0000
           && p[21..37] == seq(16, _ => 0)
         case Version => p[2] == 55 && p[5..20] == board.version && p[20..37] == seq(17, _ => 0)
  {
    hide Store32, Load32, Crc, BitsOf, ByteOf, LowBits, HighBits, Pair;
    var data, p := ReportData(r, board), ReportFrame(r, board);
    FrameBytes(ReportKind(r), 1, 1, data);
    FieldBytes(p, 0);
    FieldBytes(p, 4);
    FieldBytes(p, 8);
    FieldBytes(p, 12);
    FieldBytes(p, 16);
    match r
    case NonceFound(idx, poolNo, nonce2, nonce, jobId) =>
      FourFields(idx, poolNo, nonce2, nonce, jobId + seq(12, _ => 0));
      assert data == Store32(idx) + Store32(poolNo) + Store32(nonce2) + Store32(nonce) + (jobId + seq(12, _ => 0));
      assert data[16..20] == jobId && p[25..37] == data[20..];
    case Status(localWork, hwWork) =>
      FourFields(board.temp, board.fan, localWork % 0x1_0000_0000, hwWork % 0x1_0000_0000, seq(16, _ => 0));
      assert p[21..37] == data[16..];
    case Version =>
      assert p[5..20] == data[..15] && p[20..37] == data[15..];
  }

  /** So a frame that carries a report says by its bytes which. */
  lemma CarriedReads(p: Frame, r: Report)
    requires Carries(p, r)
    ensures p[0] == 72 && p[1] == 82
    ensures match r
      case NonceFound(idx, poolNo, nonce2, nonce, jobId) =>
        p[2] == 53 && Load32(p[5..9]) == idx && Load32(p[9..13]) == poolNo && Load32(p[13..17]) == nonce2
        && Load32(p[17..21]) == nonce && p[21..25] == jobId
      case Status(localWork, hwWork) =>
        p[2] == 54 && Load32(p[13..17]) == localWork % 0x1_0000_0000 && Load32(p[17..21]) == hwWork % 0x1_0000_0000
      case Version => p[2] == 55
  {
    hide ReportFrame, Load32;
    var board :| p == ReportFrame(r, board);
    HostReads(r, board);
  }

  lemma FrameBytes(kind: Byte, idx: Byte, cnt: Byte, data: Payload)
    ensures var p := Encoded(kind, idx, cnt, data);
      && p[0] == 72 && p[1] == 82 && p[2] == kind && p[3] == idx && p[4] == cnt && p[5..37] == data
      && Data(p) == data && Pair(BitsOf(p[38]), BitsOf(p[37])) == Crc(data)
  {
    hide Crc, BitsOf, ByteOf, LowBits, HighBits, Pair;
    var c := Crc(data);
    BitsOfByteOf(LowBits(c));
    BitsOfByteOf(HighBits(c));
    JoinedBytes(c);
  }

  lemma FourFields(a: U32, b: U32, c: U32, d: U32, rest: seq<Byte>)
    requires |rest| == 16
    ensures var data: Payload := Store32(a) + Store32(b) + Store32(c) + Store32(d) + rest;
      Field(data, 0) == a && Field(data, 4) == b && Field(data, 8) == c && Field(data, 12) == d
  {
    hide Store32, Load32;
    var data: Payload := Store32(a) + Store32(b) + Store32(c) + Store32(d) + rest;
    LoadStore(a);
    LoadStore(b);
    LoadStore(c);
    LoadStore(d);
    assert data[0..4] == Store32(a) && data[4..8] == Store32(b) && data[8..12] == Store32(c) && data[12..16] == Store32(d);
  }

  /** The firmware would not accept the status it sends after its first answer from a chip, while its
      sensors read zero. */
  lemma OwnFrameRejected(version: VersionText)
    ensures !Accepted(ReportFrame(Status(1, 0), Board(0, 0, version)))
  {
    hide Accepted, Encoded, Crc;
    var data := ReportData(Status(1, 0), Board(0, 0, version));
    assert data == seq(11, _ => 0) + [1] + seq(20, _ => 0);
    CrcOfOne();
    EncodedAccepted(P_STATUS, 1, 1, data);
    UnequalBytes();
  }

  lemma UnequalBytes()
    ensures LowBits(0xd5f6) != HighBits(0xd5f6)
  {
  }
}
