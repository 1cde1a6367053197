/** CRC-16 with the generator x^16 + x^12 + x^5 + 1 of ITU-T V.41, most significant bit first. */
module Crc16 {
  import opened Words

  /** `crc16_table`, entry 16 * hi + lo. */
  function Table(hi: bv4, lo: bv4): bv16 {
    match hi
    case 0 =>
      (match lo
       case 0 => 0x0000 case 1 => 0x1021 case 2 => 0x2042 case 3 => 0x3063 case 4 => 0x4084 case 5 => 0x50a5 case 6 => 0x60c6 case 7 => 0x70e7
       case 8 => 0x8108 case 9 => 0x9129 case 10 => 0xa14a case 11 => 0xb16b case 12 => 0xc18c case 13 => 0xd1ad case 14 => 0xe1ce case 15 => 0xf1ef)
    case 1 =>
      (match lo
       case 0 => 0x1231 case 1 => 0x0210 case 2 => 0x3273 case 3 => 0x2252 case 4 => 0x52b5 case 5 => 0x4294 case 6 => 0x72f7 case 7 => 0x62d6
       case 8 => 0x9339 case 9 => 0x8318 case 10 => 0xb37b case 11 => 0xa35a case 12 => 0xd3bd case 13 => 0xc39c case 14 => 0xf3ff case 15 => 0xe3de)
    case 2 =>
      (match lo
       case 0 => 0x2462 case 1 => 0x3443 case 2 => 0x0420 case 3 => 0x1401 case 4 => 0x64e6 case 5 => 0x74c7 case 6 => 0x44a4 case 7 => 0x5485
       case 8 => 0xa56a case 9 => 0xb54b case 10 => 0x8528 case 11 => 0x9509 case 12 => 0xe5ee case 13 => 0xf5cf case 14 => 0xc5ac case 15 => 0xd58d)
    case 3 =>
      (match lo
       case 0 => 0x3653 case 1 => 0x2672 case 2 => 0x1611 case 3 => 0x0630 case 4 => 0x76d7 case 5 => 0x66f6 case 6 => 0x5695 case 7 => 0x46b4
       case 8 => 0xb75b case 9 => 0xa77a case 10 => 0x9719 case 11 => 0x8738 case 12 => 0xf7df case 13 => 0xe7fe case 14 => 0xd79d case 15 => 0xc7bc)
    case 4 =>
      (match lo
       case 0 => 0x48c4 case 1 => 0x58e5 case 2 => 0x6886 case 3 => 0x78a7 case 4 => 0x0840 case 5 => 0x1861 case 6 => 0x2802 case 7 => 0x3823
       case 8 => 0xc9cc case 9 => 0xd9ed case 10 => 0xe98e case 11 => 0xf9af case 12 => 0x8948 case 13 => 0x9969 case 14 => 0xa90a case 15 => 0xb92b)
    case 5 =>
      (match lo
       case 0 => 0x5af5 case 1 => 0x4ad4 case 2 => 0x7ab7 case 3 => 0x6a96 case 4 => 0x1a71 case 5 => 0x0a50 case 6 => 0x3a33 case 7 => 0x2a12
       case 8 => 0xdbfd case 9 => 0xcbdc case 10 => 0xfbbf case 11 => 0xeb9e case 12 => 0x9b79 case 13 => 0x8b58 case 14 => 0xbb3b case 15 => 0xab1a)
    case 6 =>
      (match lo
       case 0 => 0x6ca6 case 1 => 0x7c87 case 2 => 0x4ce4 case 3 => 0x5cc5 case 4 => 0x2c22 case 5 => 0x3c03 case 6 => 0x0c60 case 7 => 0x1c41
       case 8 => 0xedae case 9 => 0xfd8f case 10 => 0xcdec case 11 => 0xddcd case 12 => 0xad2a case 13 => 0xbd0b case 14 => 0x8d68 case 15 => 0x9d49)
    case 7 =>
      (match lo
       case 0 => 0x7e97 case 1 => 0x6eb6 case 2 => 0x5ed5 case 3 => 0x4ef4 case 4 => 0x3e13 case 5 => 0x2e32 case 6 => 0x1e51 case 7 => 0x0e70
       case 8 => 0xff9f case 9 => 0xefbe case 10 => 0xdfdd case 11 => 0xcffc case 12 => 0xbf1b case 13 => 0xaf3a case 14 => 0x9f59 case 15 => 0x8f78)
    case 8 =>
      (match lo
       case 0 => 0x9188 case 1 => 0x81a9 case 2 => 0xb1ca case 3 => 0xa1eb case 4 => 0xd10c case 5 => 0xc12d case 6 => 0xf14e case 7 => 0xe16f
       case 8 => 0x1080 case 9 => 0x00a1 case 10 => 0x30c2 case 11 => 0x20e3 case 12 => 0x5004 case 13 => 0x4025 case 14 => 0x7046 case 15 => 0x6067)
    case 9 =>
      (match lo
       case 0 => 0x83b9 case 1 => 0x9398 case 2 => 0xa3fb case 3 => 0xb3da case 4 => 0xc33d case 5 => 0xd31c case 6 => 0xe37f case 7 => 0xf35e
       case 8 => 0x02b1 case 9 => 0x1290 case 10 => 0x22f3 case 11 => 0x32d2 case 12 => 0x4235 case 13 => 0x5214 case 14 => 0x6277 case 15 => 0x7256)
    case 10 =>
      (match lo
       case 0 => 0xb5ea case 1 => 0xa5cb case 2 => 0x95a8 case 3 => 0x8589 case 4 => 0xf56e case 5 => 0xe54f case 6 => 0xd52c case 7 => 0xc50d
       case 8 => 0x34e2 case 9 => 0x24c3 case 10 => 0x14a0 case 11 => 0x0481 case 12 => 0x7466 case 13 => 0x6447 case 14 => 0x5424 case 15 => 0x4405)
    case 11 =>
      (match lo
       case 0 => 0xa7db case 1 => 0xb7fa case 2 => 0x8799 case 3 => 0x97b8 case 4 => 0xe75f case 5 => 0xf77e case 6 => 0xc71d case 7 => 0xd73c
       case 8 => 0x26d3 case 9 => 0x36f2 case 10 => 0x0691 case 11 => 0x16b0 case 12 => 0x6657 case 13 => 0x7676 case 14 => 0x4615 case 15 => 0x5634)
    case 12 =>
      (match lo
       case 0 => 0xd94c case 1 => 0xc96d case 2 => 0xf90e case 3 => 0xe92f case 4 => 0x99c8 case 5 => 0x89e9 case 6 => 0xb98a case 7 => 0xa9ab
       case 8 => 0x5844 case 9 => 0x4865 case 10 => 0x7806 case 11 => 0x6827 case 12 => 0x18c0 case 13 => 0x08e1 case 14 => 0x3882 case 15 => 0x28a3)
    case 13 =>
      (match lo
       case 0 => 0xcb7d case 1 => 0xdb5c case 2 => 0xeb3f case 3 => 0xfb1e case 4 => 0x8bf9 case 5 => 0x9bd8 case 6 => 0xabbb case 7 => 0xbb9a
       case 8 => 0x4a75 case 9 => 0x5a54 case 10 => 0x6a37 case 11 => 0x7a16 case 12 => 0x0af1 case 13 => 0x1ad0 case 14 => 0x2ab3 case 15 => 0x3a92)
    case 14 =>
      (match lo
       case 0 => 0xfd2e case 1 => 0xed0f case 2 => 0xdd6c case 3 => 0xcd4d case 4 => 0xbdaa case 5 => 0xad8b case 6 => 0x9de8 case 7 => 0x8dc9
       case 8 => 0x7c26 case 9 => 0x6c07 case 10 => 0x5c64 case 11 => 0x4c45 case 12 => 0x3ca2 case 13 => 0x2c83 case 14 => 0x1ce0 case 15 => 0x0cc1)
    case 15 =>
      (match lo
       case 0 => 0xef1f case 1 => 0xff3e case 2 => 0xcf5d case 3 => 0xdf7c case 4 => 0xaf9b case 5 => 0xbfba case 6 => 0x8fd9 case 7 => 0x9ff8
       case 8 => 0x6e17 case 9 => 0x7e36 case 10 => 0x4e55 case 11 => 0x5e74 case 12 => 0x2e93 case 13 => 0x3eb2 case 14 => 0x0ed1 case 15 => 0x1ef0)
  }

  /** `crc16_table[i & 0xFF]`. */
  function Lookup(i: bv16): bv16 {
    Table(((i >> 4) & 0xf) as bv4, (i & 0xf) as bv4)
  }

  // The division register, built from three operations and their laws.

  function Xor(a: bv16, b: bv16): bv16 { a ^ b }

  function Left(v: bv16): bv16 { v << 1 }

  function High(v: bv16): bool { v & 0x8000 != 0 }

  lemma XorCommutes(a: bv16, b: bv16)
    ensures Xor(a, b) == Xor(b, a)
  {
  }

  lemma XorAssociates(a: bv16, b: bv16, g: bv16)
    ensures Xor(a, Xor(b, g)) == Xor(Xor(a, b), g)
  {
  }

  lemma XorCancels(a: bv16, b: bv16)
    ensures Xor(Xor(a, b), b) == a
  {
  }

  lemma XorLaws(a: bv16, b: bv16, g: bv16)
    ensures Xor(Xor(a, g), Xor(b, g)) == Xor(a, b)
    ensures Xor(Xor(a, g), b) == Xor(Xor(a, b), g)
    ensures Xor(a, Xor(b, g)) == Xor(Xor(a, b), g)
  {
    hide Xor;
    XorAssociates(a, b, g);
    XorAssociates(a, g, b);
    XorAssociates(a, g, Xor(b, g));
    XorCommutes(g, b);
    XorCommutes(g, Xor(b, g));
    XorCancels(b, g);
  }

  lemma XorZero(a: bv16)
    ensures Xor(a, 0) == a && Xor(a, a) == 0
  {
  }

  lemma LeftXor(a: bv16, b: bv16)
    ensures Left(Xor(a, b)) == Xor(Left(a), Left(b))
  {
  }

  lemma HighXor(a: bv16, b: bv16)
    ensures High(Xor(a, b)) == (High(a) != High(b))
  {
  }

  /** The register shifted by one place, the generator taken off when a one falls out. */
  function Shift(c: bv16): bv16 {
    if High(c) then Xor(Left(c), 0x1021) else Left(c)
  }

  function Top(bit: bool): bv16 { if bit then 0x8000 else 0 }

  /** One message bit comes in. */
  function Step(c: bv16, bit: bool): bv16 { Shift(Xor(c, Top(bit))) }

  function Divide(c: bv16, bits: seq<bool>): bv16
    decreases |bits|
  {
    if bits == [] then c else Divide(Step(c, bits[0]), bits[1..])
  }

  function Shift4(c: bv16): bv16 { Shift(Shift(Shift(Shift(c)))) }

  function Shift8(c: bv16): bv16 { Shift4(Shift4(c)) }

  /** Every table entry is its index divided as eight message bits. */
  lemma TableEntry(hi: bv4, lo: bv4)
    ensures Table(hi, lo) == Shift8(((hi as bv16) << 12) | ((lo as bv16) << 8))
  {
    hide Table, Shift8;
    if hi < 8 { FirstEntries(hi, lo); } else { LastEntries(hi, lo); }
  }

  lemma FirstEntries(hi: bv4, lo: bv4)
    requires hi < 8
    ensures Table(hi, lo) == Shift8(((hi as bv16) << 12) | ((lo as bv16) << 8))
  {
    match hi
    case 0 => case 1 => case 2 => case 3 => case 4 => case 5 => case 6 => case 7 => case _ => assert false;
  }

  lemma LastEntries(hi: bv4, lo: bv4)
    requires hi >= 8
    ensures Table(hi, lo) == Shift8(((hi as bv16) << 12) | ((lo as bv16) << 8))
  {
    match hi
    case 8 => case 9 => case 10 => case 11 => case 12 => case 13 => case 14 => case 15 => case _ => assert false;
  }

  /** The low byte of the register moved to its top. */
  function Raised(c: bv16): bv16 { (c & 0xff) << 8 }

  function Up(c: bv16): bv16 { c << 8 }

  function LowPart(c: bv16): bv16 { c & 0xff }

  lemma LookupDivides(i: bv16)
    ensures Lookup(i) == Shift8(Raised(i))
  {
    hide Table, Shift8;
    var hi, lo := ((i >> 4) & 0xf) as bv4, (i & 0xf) as bv4;
    TableEntry(hi, lo);
    NibblesJoin(i);
  }

  lemma NibblesJoin(i: bv16)
    ensures ((((i >> 4) & 0xf) as bv4 as bv16) << 12) | (((i & 0xf) as bv4 as bv16) << 8) == (i & 0xff) << 8
  {
  }

  // The register is linear

  lemma ShiftLinear(a: bv16, b: bv16)
    ensures Shift(Xor(a, b)) == Xor(Shift(a), Shift(b))
  {
    hide Xor, Left, High;
    LeftXor(a, b);
    HighXor(a, b);
    XorLaws(Left(a), Left(b), 0x1021);
  }

  lemma Shift8Linear(a: bv16, b: bv16)
    ensures Shift8(Xor(a, b)) == Xor(Shift8(a), Shift8(b))
  {
    hide Shift, Xor;
    var a1, b1 := Shift(a), Shift(b);
    var a2, b2 := Shift(a1), Shift(b1);
    var a3, b3 := Shift(a2), Shift(b2);
    var a4, b4 := Shift(a3), Shift(b3);
    var a5, b5 := Shift(a4), Shift(b4);
    var a6, b6 := Shift(a5), Shift(b5);
    ShiftLinear(a, b);
    ShiftLinear(a1, b1);
    ShiftLinear(a2, b2);
    ShiftLinear(a3, b3);
    ShiftLinear(a4, b4);
    ShiftLinear(a5, b5);
    ShiftLinear(a6, b6);
    ShiftLinear(Shift(a6), Shift(b6));
  }

  lemma LowByte(c: bv16)
    ensures Shift8(LowPart(c)) == Up(c)
  {
  }

  // One table step is eight bit steps

  /** The bits of a byte, most significant first. */
  function ByteBits(b: bv8): seq<bool> {
    [b & 0x80 != 0, b & 0x40 != 0, b & 0x20 != 0, b & 0x10 != 0, b & 8 != 0, b & 4 != 0, b & 2 != 0, b & 1 != 0]
  }

  /** A byte at the top of the register. */
  function Raise(b: bv8): bv16 { (b as bv16) << 8 }

  lemma FeedTop(c: bv16, v: bv16)
    ensures Shift(Xor(c, v)) == Xor(Step(c, High(v)), Left(v))
  {
    hide Xor, Left, High;
    var t := Top(High(v));
    ShiftLinear(c, v);
    ShiftLinear(c, t);
    ShiftedTop(High(v));
    XorLaws(Shift(c), Left(v), 0x1021);
    XorZero(Shift(c));
  }

  lemma ShiftedTop(bit: bool)
    ensures Shift(Top(bit)) == if bit then 0x1021 else 0
  {
  }

  lemma BitsOfRaised(b: bv8)
    ensures var v := Raise(b);
      && ByteBits(b) == [High(v), High(Left(v)), High(Left(Left(v))), High(Left(Left(Left(v))))]
                      + [High(Left(Left(Left(Left(v))))), High(Left(Left(Left(Left(Left(v)))))),
                         High(Left(Left(Left(Left(Left(Left(v))))))), High(Left(Left(Left(Left(Left(Left(Left(v))))))))]
      && Left(Left(Left(Left(Left(Left(Left(Left(v)))))))) == 0
  {
  }

  lemma FeedHalf(c: bv16, v: bv16)
    ensures Shift4(Xor(c, v)) ==
      Xor(Divide(c, [High(v), High(Left(v)), High(Left(Left(v))), High(Left(Left(Left(v))))]), Left(Left(Left(Left(v)))))
  {
    hide Shift, Step, Xor, Left, High;
    var v1 := Left(v);
    var v2 := Left(v1);
    var v3 := Left(v2);
    var c1 := Step(c, High(v));
    var c2 := Step(c1, High(v1));
    var c3 := Step(c2, High(v2));
    FeedTop(c, v);
    FeedTop(c1, v1);
    FeedTop(c2, v2);
    FeedTop(c3, v3);
    DivideFour(c, High(v), High(v1), High(v2), High(v3));
  }

  lemma DivideFour(c: bv16, a: bool, b: bool, d: bool, e: bool)
    ensures Divide(c, [a, b, d, e]) == Step(Step(Step(Step(c, a), b), d), e)
  {
    hide Step;
    DivideNext(c, a, [b, d, e]);
    DivideNext(Step(c, a), b, [d, e]);
    DivideNext(Step(Step(c, a), b), d, [e]);
    DivideNext(Step(Step(Step(c, a), b), d), e, []);
    assert [d, e] == [d] + [e] && [e] == [e] + [];
    assert [b, d, e] == [b] + [d, e] && [a, b, d, e] == [a] + [b, d, e];
  }

  lemma DivideNext(c: bv16, bit: bool, rest: seq<bool>)
    ensures Divide(c, [bit] + rest) == Divide(Step(c, bit), rest)
  {
    assert ([bit] + rest)[1..] == rest;
  }

  /** Eight bit steps clock a byte through the top of the register. */
  lemma FeedByte(c: bv16, b: bv8)
    ensures Divide(c, ByteBits(b)) == Shift8(Xor(c, Raise(b)))
  {
    hide Shift, Shift4, Step, Xor, Left, High, Raise, ByteBits, Divide;
    var v := Raise(b);
    var w := Left(Left(Left(Left(v))));
    var first := [High(v), High(Left(v)), High(Left(Left(v))), High(Left(Left(Left(v))))];
    var second := [High(w), High(Left(w)), High(Left(Left(w))), High(Left(Left(Left(w))))];
    BitsOfRaised(b);
    assert ByteBits(b) == first + second;
    FeedHalf(c, v);
    FeedHalf(Divide(c, first), w);
    DivideAppend(c, first, second);
    var half := Divide(c, first);
    assert Shift4(Xor(c, v)) == Xor(half, w);
    assert Shift4(Xor(half, w)) == Xor(Divide(half, second), Left(Left(Left(Left(w)))));
    XorZero(Divide(half, second));
  }

  lemma {:induction false} DivideAppend(c: bv16, a: seq<bool>, b: seq<bool>)
    ensures Divide(c, a + b) == Divide(Divide(c, a), b)
    decreases |a|
  {
    hide Step;
    if a == [] {
      assert a + b == b;
    } else {
      DivideAppend(Step(c, a[0]), a[1..], b);
      assert (a + b)[1..] == a[1..] + b;
    }
  }

  function Index(c: bv16, b: bv8): bv16 { ((c >> 8) ^ (b as bv16)) & 0xff }

  /** The table update of the register is division by one more byte. */
  lemma TableStep(c: bv16, b: bv8)
    ensures Xor(Lookup(Index(c, b)), Up(c)) == Divide(c, ByteBits(b))
  {
    hide Lookup, Shift8, Divide, ByteBits, Index, Xor, Raise, Raised, LowPart, Up;
    FeedByte(c, b);
    LookupDivides(Index(c, b));
    Shift8Linear(Raised(Index(c, b)), LowPart(c));
    LowByte(c);
    Regroup(c, b);
  }

  lemma Regroup(c: bv16, b: bv8)
    ensures Xor(Raised(Index(c, b)), LowPart(c)) == Xor(c, Raise(b))
  {
    hide Xor, Raised, Index, LowPart, Raise;
    RaisedIndex(c, b);
    SplitRegister(c);
    XorLaws(Raised(c >> 8), LowPart(c), Raise(b));
  }

  lemma RaisedIndex(c: bv16, b: bv8)
    ensures Raised(Index(c, b)) == Xor(Raised(c >> 8), Raise(b))
  {
  }

  lemma SplitRegister(c: bv16)
    ensures Xor(Raised(c >> 8), LowPart(c)) == c
  {
  }

  /** A byte string as message bits. */
  function Bits(bs: seq<Byte>): (m: seq<bool>)
    ensures |m| == 8 * |bs|
  {
    if bs == [] then [] else ByteBits(BitsOf(bs[0])) + Bits(bs[1..])
  }

  lemma {:induction false} BitsAppend(a: seq<Byte>, b: seq<Byte>)
    ensures Bits(a + b) == Bits(a) + Bits(b)
    decreases |a|
  {
    hide ByteBits;
    if a == [] {
      assert a + b == b;
    } else {
      BitsAppend(a[1..], b);
      var ab := a + b;
      assert ab[1..] == a[1..] + b && ab[0] == a[0];
    }
  }

  /** The CRC of a byte string: the register after dividing its bits, starting from zero. */
  function Crc(bs: seq<Byte>): bv16 { Divide(0, Bits(bs)) }

  /** `crc16` over the first `len` bytes; a negative length reads nothing. */
  method ComputeCrc16(buffer: seq<Byte>, len: int) returns (crc: bv16)
    requires len <= |buffer|
    ensures crc == Crc(buffer[..if len < 0 then 0 else len])
  {
    hide Lookup, ByteBits, Step, Index, Xor, Up;
    crc := 0;
    var left, p := len, 0;
    while left > 0
      invariant 0 <= p <= |buffer| && (if len < 0 then p == 0 && left == len else p + left == len && left >= 0)
      invariant crc == Divide(0, Bits(buffer[..p]))
    {
      var b := BitsOf(buffer[p]);
      TableStep(crc, b);
      NextByte(buffer, p);
      DivideAppend(0, Bits(buffer[..p]), ByteBits(b));
      crc := Xor(Lookup(Index(crc, b)), Up(crc));
      p, left := p + 1, left - 1;
    }
  }

  lemma NextByte(bs: seq<Byte>, p: nat)
    requires p < |bs|
    ensures Bits(bs[..p + 1]) == Bits(bs[..p]) + ByteBits(BitsOf(bs[p]))
  {
    hide ByteBits;
    var one := [bs[p]];
    assert bs[..p + 1] == bs[..p] + one;
    BitsAppend(bs[..p], one);
    assert one[1..] == [];
    assert ByteBits(BitsOf(bs[p])) + [] == ByteBits(BitsOf(bs[p]));
    assert Bits(one) == ByteBits(BitsOf(bs[p]));
  }
}
