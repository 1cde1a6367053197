/** The 39-byte packets exchanged with the host. */
module Packets {
  import opened Words
  import opened Crc16
  import opened CrcPolynomial

  const P_COUNT: nat := 39
  const P_DATA_LEN: nat := 32

  const H1: Byte := 72
  const H2: Byte := 82

  const P_DETECT: Byte := 10
  const P_STATIC: Byte := 11
  const P_JOB_ID: Byte := 12
  const P_COINBASE: Byte := 13
  const P_MERKLES: Byte := 14
  const P_HEADER: Byte := 15
  const P_POLLING: Byte := 16
  const P_TARGET: Byte := 17
  const P_REQUIRE: Byte := 18
  const P_SET: Byte := 19
  const P_GET_FREQ: Byte := 22
  const P_NONCE: Byte := 53
  const P_STATUS: Byte := 54
  const P_ACKDETECT: Byte := 55
  const P_TEST_RET: Byte := 56

  type Frame = p: seq<Byte> | |p| == 39 witness seq(39, _ => 0)

  type Payload = d: seq<Byte> | |d| == 32 witness seq(32, _ => 0)

  function Data(p: Frame): Payload { p[5..37] }

  function Kind(p: Frame): Byte { p[2] }

  function Idx(p: Frame): Byte { p[3] }

  lemma FieldBytes(p: Frame, at: nat)
    requires at + 4 <= 32
    ensures Data(p)[at..at + 4] == p[5 + at..5 + at + 4]
  {
  }

  function LowBits(c: bv16): bv8 { (c & 0xff) as bv8 }

  function HighBits(c: bv16): bv8 { ((c >> 8) & 0xff) as bv8 }

  /** The 16-bit number with the given high and low bytes. */
  function Pair(hi: bv8, lo: bv8): bv16 { ((hi as bv16) << 8) | (lo as bv16) }

  /** `decode_pkg` reads the high byte of the CRC first. */
  predicate Accepted(p: Frame) {
    Pair(BitsOf(p[37]), BitsOf(p[38])) == Crc(Data(p))
  }

  /** The frame `encode_pkg` builds: it writes the low byte of the CRC first. */
  function Encoded(kind: Byte, idx: Byte, cnt: Byte, data: Payload): Frame {
    [H1, H2, kind, idx, cnt] + data + [ByteOf(LowBits(Crc(data))), ByteOf(HighBits(Crc(data)))]
  }

  /** A frame of its own is accepted by `decode_pkg` exactly when its two CRC bytes are equal. */
  lemma EncodedAccepted(kind: Byte, idx: Byte, cnt: Byte, data: Payload)
    ensures Accepted(Encoded(kind, idx, cnt, data)) <==> LowBits(Crc(data)) == HighBits(Crc(data))
  {
    hide Crc, BitsOf, ByteOf, LowBits, HighBits, Pair;
    var p, c := Encoded(kind, idx, cnt, data), Crc(data);
    assert Data(p) == data;
    assert p[37] == ByteOf(LowBits(c)) && p[38] == ByteOf(HighBits(c));
    BitsOfByteOf(LowBits(c));
    BitsOfByteOf(HighBits(c));
    SwappedBytes(c);
  }

  /** A frame as a host makes it: the high byte of the CRC first. */
  function Made(kind: Byte, idx: Byte, data: Payload): Frame {
    [H1, H2, kind, idx, 1] + data + [ByteOf(HighBits(Crc(data))), ByteOf(LowBits(Crc(data)))]
  }

  lemma MadeAccepted(kind: Byte, idx: Byte, data: Payload)
    ensures var p := Made(kind, idx, data); Accepted(p) && Kind(p) == kind && Idx(p) == idx && Data(p) == data
  {
    hide Crc, BitsOf, ByteOf, LowBits, HighBits, Pair;
    var p, c := Made(kind, idx, data), Crc(data);
    assert Data(p) == data;
    assert p[37] == ByteOf(HighBits(c)) && p[38] == ByteOf(LowBits(c));
    BitsOfByteOf(LowBits(c));
    BitsOfByteOf(HighBits(c));
    JoinedBytes(c);
  }

  lemma JoinedBytes(c: bv16)
    ensures Pair(HighBits(c), LowBits(c)) == c
  {
  }

  /** The CRC of a number 1 with twenty zero bytes behind it. */
  lemma CrcOfOne()
    ensures Crc(seq(11, _ => 0) + [1] + seq(20, _ => 0)) == 0xd5f6
  {
    hide Divide, ByteBits, Bits, Step, Lookup, Xor, Up, Index, Shifts;
    var zeros: seq<Byte>, rest: seq<Byte> := seq(11, _ => 0), seq(20, _ => 0);
    ZeroBytes(11);
    ZeroBytes(20);
    BitsAppend(zeros + [1], rest);
    BitsAppend(zeros, [1]);
    DivideAppend(0, Bits(zeros + [1]), Bits(rest));
    DivideAppend(0, Bits(zeros), Bits([1]));
    ZeroBits(0, 88);
    OneByte(1);
    TableStep(0, 1);
    OneStep();
    ZerosShift(0x1021, 20);
    TwentyShifts();
  }

  lemma OneByte(b: Byte)
    ensures Bits([b]) == ByteBits(BitsOf(b)) && BitsOf(1) == 1
  {
    hide ByteBits;
    var none: seq<Byte> := [b][1..];
    assert none == [] && Bits(none) == [];
  }

  lemma OneStep()
    ensures Xor(Lookup(Index(0, 1)), Up(0)) == 0x1021
  {
  }

  lemma {:induction false} ZeroBytes(n: nat)
    ensures Bits(seq(n, _ => 0)) == Zero(8 * n)
    decreases n
  {
    if n > 0 {
      ZeroBytes(n - 1);
      var zeros: seq<Byte> := seq(n, _ => 0);
      assert zeros[1..] == seq(n - 1, _ => 0);
      assert BitsOf(0) == 0;
    }
  }

  /** The register after n zero bytes. */
  function Shifts(c: bv16, n: nat): bv16
    decreases n
  {
    if n == 0 then c else Shifts(Shift8(c), n - 1)
  }

  lemma {:induction false} ZerosShift(c: bv16, n: nat)
    ensures Divide(c, Zero(8 * n)) == Shifts(c, n)
    decreases n
  {
    hide Divide, ByteBits, Shift8, Xor, Raise;
    if n == 0 {
      NoZeros(c);
    } else {
      assert Zero(8 * n) == ByteBits(0) + Zero(8 * (n - 1)) by { ZeroByte(); }
      DivideAppend(c, ByteBits(0), Zero(8 * (n - 1)));
      FeedByte(c, 0);
      RaisedZero();
      XorZero(c);
      ZerosShift(Shift8(c), n - 1);
    }
  }

  lemma NoZeros(c: bv16)
    ensures Divide(c, Zero(0)) == c
  {
  }

  lemma ZeroByte()
    ensures ByteBits(0) == Zero(8)
  {
  }

  lemma RaisedZero()
    ensures Raise(0) == 0
  {
  }

  lemma ShiftsAdd(c: bv16, m: nat, n: nat)
    ensures Shifts(c, m + n) == Shifts(Shifts(c, m), n)
    decreases m
  {
    hide Shift8;
    if m > 0 {
      ShiftsAdd(Shift8(c), m - 1, n);
    }
  }

  lemma TwentyShifts()
    ensures Shifts(0x1021, 20) == 0xd5f6
  {
    hide Shifts;
    FirstFive();
    NextFive();
    MoreFive();
    LastFive();
    ShiftsAdd(0x1021, 5, 15);
    ShiftsAdd(0x45a0, 5, 10);
    ShiftsAdd(0xd849, 5, 5);
  }

  lemma FirstFive()
    ensures Shifts(0x1021, 5) == 0x45a0
  {
    assert Shift8(0x1021) == 0x3331;
    assert Shift8(0x3331) == 0x3730;
    assert Shift8(0x3730) == 0x76b4;
    assert Shift8(0x76b4) == 0xaa51;
    assert Shift8(0xaa51) == 0x45a0;
  }

  lemma NextFive()
    ensures Shifts(0x45a0, 5) == 0xd849
  {
    assert Shift8(0x45a0) == 0xb861;
    assert Shift8(0xb861) == 0x47d3;
    assert Shift8(0x47d3) == 0xeb23;
    assert Shift8(0xeb23) == 0x6f45;
    assert Shift8(0x6f45) == 0xd849;
  }

  lemma MoreFive()
    ensures Shifts(0xd849, 5) == 0xa824
  {
    assert Shift8(0xd849) == 0x375;
    assert Shift8(0x375) == 0x4563;
    assert Shift8(0x4563) == 0x7b61;
    assert Shift8(0x7b61) == 0xaefc;
    assert Shift8(0xaefc) == 0xa824;
  }

  lemma LastFive()
    ensures Shifts(0xa824, 5) == 0xd5f6
  {
    assert Shift8(0xa824) == 0x10e2;
    assert Shift8(0x10e2) == 0xf031;
    assert Shift8(0xf031) == 0xde1f;
    assert Shift8(0xde1f) == 0x35b3;
    assert Shift8(0x35b3) == 0xd5f6;
  }

  lemma SwappedBytes(c: bv16)
    ensures Pair(LowBits(c), HighBits(c)) == c <==> LowBits(c) == HighBits(c)
  {
  }

  /** What the CRC covers: the data and the CRC itself. */
  function Covered(p: Frame): seq<Byte> { p[5..39] }

  function Wide(b: bv8): bv16 { b as bv16 }

  /** Data and CRC, high byte first, together are a multiple of the generator. */
  lemma CodeWord(data: seq<Byte>, hi: Byte, lo: Byte)
    ensures Crc(data + [hi, lo]) == 0 <==> Pair(BitsOf(hi), BitsOf(lo)) == Crc(data)
  {
    hide Divide, ByteBits, Bits, BitsOf, Shift8, Xor, Raise, Wide, Pair;
    var c, h, l := Crc(data), BitsOf(hi), BitsOf(lo);
    assert data + [hi, lo] == data + [hi] + [lo];
    BitsAppend(data + [hi], [lo]);
    BitsAppend(data, [hi]);
    OneByte(hi);
    OneByte(lo);
    DivideAppend(0, Bits(data + [hi]), Bits([lo]));
    DivideAppend(0, Bits(data), Bits([hi]));
    FeedByte(c, h);
    FeedByte(Shift8(Xor(c, Raise(h))), l);
    WideShift(l);
    Shift8Linear(Xor(c, Raise(h)), Wide(l));
    XorLaws(c, Raise(h), Wide(l));
    PairIs(h, l);
    Shift8Zero(Shift8(Xor(c, Pair(h, l))));
    Shift8Zero(Xor(c, Pair(h, l)));
    XorEqual(c, Pair(h, l));
  }

  lemma WideShift(l: bv8)
    ensures Shift8(Wide(l)) == Raise(l)
  {
    hide Shift8;
    LowByte(Wide(l));
    assert LowPart(Wide(l)) == Wide(l) && Up(Wide(l)) == Raise(l);
  }

  lemma PairIs(hi: bv8, lo: bv8)
    ensures Xor(Raise(hi), Wide(lo)) == Pair(hi, lo)
  {
  }

  lemma Shift8Zero(c: bv16)
    ensures Shift8(c) == 0 <==> c == 0
  {
    hide Shift;
    ShiftZero(c);
    ShiftZero(Shift(c));
    ShiftZero(Shift(Shift(c)));
    ShiftZero(Shift(Shift(Shift(c))));
    var d := Shift4(c);
    ShiftZero(d);
    ShiftZero(Shift(d));
    ShiftZero(Shift(Shift(d)));
    ShiftZero(Shift(Shift(Shift(d))));
  }

  lemma XorEqual(a: bv16, b: bv16)
    ensures Xor(a, b) == 0 <==> a == b
  {
  }

  lemma AcceptedCovered(p: Frame)
    ensures Accepted(p) <==> Crc(Covered(p)) == 0
  {
    hide Crc, Pair, BitsOf;
    CodeWord(Data(p), p[37], p[38]);
    assert Covered(p) == Data(p) + [p[37], p[38]];
  }

  /** A frame is rejected if one burst of at most sixteen bits hit its data or its CRC or both. */
  lemma BurstRejected(sent: Frame, received: Frame, before: nat, e: Poly, after: nat)
    requires Accepted(sent)
    requires before + |e| + after == 272 && |e| <= 16 && exists i :: 0 <= i < |e| && e[i]
    requires Sum(Bits(Covered(sent)), Bits(Covered(received))) == Zero(before) + e + Zero(after)
    ensures !Accepted(received)
  {
    hide Crc, Bits, Accepted, Covered;
    AcceptedCovered(sent);
    AcceptedCovered(received);
    assert |Covered(sent)| == |Covered(received)| == 34 by { CoveredLength(sent); CoveredLength(received); }
    BurstDetected(Covered(sent), Covered(received), before, e, after);
  }

  lemma CoveredLength(p: Frame)
    ensures |Covered(p)| == 34
  {
  }

  /** An error in the first five bytes, kind and index among them, is never noticed. */
  lemma HeaderUnchecked(sent: Frame, received: Frame)
    requires Covered(received) == Covered(sent)
    ensures Accepted(received) <==> Accepted(sent)
  {
    hide Accepted;
    AcceptedCovered(sent);
    AcceptedCovered(received);
  }

  /** `encode_pkg`, with the temperatures and fan speeds it reads for a status packet as parameters. */
  method EncodePkg(kind: Byte, buf: seq<Byte>, len: nat, idx: Byte, cnt: Byte,
                   temp: U32, fan: U32, localWork: U32, hwWork: U32) returns (p: Frame)
    requires len <= |buf| && len <= P_DATA_LEN
    ensures p == Encoded(kind, idx, cnt, PayloadOf(kind, buf[..len], temp, fan, localWork, hwWork))
  {
    hide Crc, Store32, LowBits, HighBits, ByteOf;
    var packet := new Byte[P_COUNT](_ => 0);
    packet[0], packet[1], packet[2], packet[3], packet[4] := H1, H2, kind, idx, cnt;
    FillPayload(packet, kind, buf[..len], temp, fan, localWork, hwWork);
    var data := packet[5..37];
    var crc := ComputeCrc16(data, P_DATA_LEN);
    assert data[..32] == data;
    packet[37], packet[38] := ByteOf(LowBits(crc)), ByteOf(HighBits(crc));
    p := packet[..];
    assert p == [H1, H2, kind, idx, cnt] + data + [ByteOf(LowBits(crc)), ByteOf(HighBits(crc))];
  }

  method FillPayload(packet: array<Byte>, kind: Byte, buf: seq<Byte>, temp: U32, fan: U32, localWork: U32, hwWork: U32)
    requires packet.Length == P_COUNT && |buf| <= P_DATA_LEN && forall i :: 5 <= i < P_COUNT ==> packet[i] == 0
    modifies packet
    ensures packet[5..37] == PayloadOf(kind, buf, temp, fan, localWork, hwWork)
    ensures packet[..5] == old(packet[..5])
  {
    hide Store32;
    if kind in {P_ACKDETECT, P_NONCE, P_TEST_RET, P_GET_FREQ} {
      CopyData(packet, buf);
    } else if kind == P_STATUS {
      CopyData(packet, Store32(temp) + Store32(fan) + Store32(localWork) + Store32(hwWork));
    } else {
      CopyData(packet, []);
      assert [] + seq(P_DATA_LEN, _ => 0) == seq(P_DATA_LEN, _ => 0);
    }
  }

  /** `memcpy` to the start of a data field that is still clear. */
  method CopyData(packet: array<Byte>, bs: seq<Byte>)
    requires packet.Length == P_COUNT && |bs| <= P_DATA_LEN && forall i :: 5 <= i < P_COUNT ==> packet[i] == 0
    modifies packet
    ensures packet[5..37] == bs + seq(P_DATA_LEN - |bs|, _ => 0) && packet[..5] == old(packet[..5])
  {
    forall i | 0 <= i < |bs| { packet[5 + i] := bs[i]; }
    var zeros: seq<Byte> := seq(P_DATA_LEN - |bs|, _ => 0);
    forall i | 0 <= i < 32 ensures packet[5..37][i] == (bs + zeros)[i] {
      assert packet[5..37][i] == packet[5 + i];
    }
  }

  /** The data field of a packet of the given kind. */
  function PayloadOf(kind: Byte, buf: seq<Byte>, temp: U32, fan: U32, localWork: U32, hwWork: U32): Payload
    requires |buf| <= P_DATA_LEN
  {
    if kind in {P_ACKDETECT, P_NONCE, P_TEST_RET, P_GET_FREQ} then buf + seq(P_DATA_LEN - |buf|, _ => 0)
    else if kind == P_STATUS then
      Store32(temp) + Store32(fan) + Store32(localWork) + Store32(hwWork) + seq(16, _ => 0)
    else seq(P_DATA_LEN, _ => 0)
  }
}
