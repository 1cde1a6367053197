/** Byte-order flips of 32-bit memory words, splices into buffers, little-endian numbers. */
module Bytes {
  import opened Words

  function Swap16(v: int): int
    requires 0 <= v < 0x1_0000
  {
    v % 256 * 256 + v / 256
  }

  /** The `bswap_32` macro. */
  function Swap32(n: U32): U32 {
    Swap16(n % 0x1_0000) * 0x1_0000 + Swap16(n / 0x1_0000)
  }

  lemma SwapReverses(b: seq<Byte>)
    requires |b| == 4
    ensures Store32(Swap32(Load32(b))) == [b[3], b[2], b[1], b[0]]
  {
    var hi: int := (b[0] as int) * 256 + b[1] as int;
    var lo: int := (b[2] as int) * 256 + b[3] as int;
    var n: int := hi * 0x1_0000 + lo;
    assert Load32(b) == n && n % 0x1_0000 == lo && n / 0x1_0000 == hi;
    assert lo % 256 == b[3] as int && lo / 256 == b[2] as int && hi % 256 == b[1] as int && hi / 256 == b[0] as int;
    var r := [b[3], b[2], b[1], b[0]];
    assert Swap32(n) == Load32(r);
    StoreLoad(r);
  }

  lemma SwapTwice(n: U32)
    ensures Swap32(Swap32(n)) == n
  {
    var hi, lo: int := n / 0x1_0000, n % 0x1_0000;
    var m: int := Swap16(lo) * 0x1_0000 + Swap16(hi);
    assert m / 0x1_0000 == Swap16(lo) && m % 0x1_0000 == Swap16(hi);
    Swap16Twice(lo);
    Swap16Twice(hi);
  }

  lemma Swap16Twice(v: int)
    requires 0 <= v < 0x1_0000
    ensures 0 <= Swap16(v) < 0x1_0000 && Swap16(Swap16(v)) == v
  {
  }

  lemma ExtremeWords()
    ensures Load32([0, 0, 0, 0]) == 0 && Load32([0xff, 0xff, 0xff, 0xff]) == 0xffff_ffff
  {
  }

  lemma ExtremeSwaps()
    ensures Swap32(0) == 0 && Swap32(0xffff_ffff) == 0xffff_ffff
  {
    var hi, lo: int := 0xffff_ffff / 0x1_0000, 0xffff_ffff % 0x1_0000;
    assert hi == 0xffff && lo == 0xffff && Swap16(0xffff) == 0xffff && Swap16(0) == 0;
  }

  /** Every memory word with its bytes in the other order. */
  function Flip(bs: seq<Byte>): (f: seq<Byte>)
    requires |bs| % 4 == 0
    ensures |f| == |bs|
  {
    if bs == [] then [] else [bs[3], bs[2], bs[1], bs[0]] + Flip(bs[4..])
  }

  lemma {:induction false} FlipAppend(a: seq<Byte>, b: seq<Byte>)
    requires |a| % 4 == 0 && |b| % 4 == 0
    ensures Flip(a + b) == Flip(a) + Flip(b)
    decreases |a|
  {
    if a == [] {
      assert a + b == b;
    } else {
      var ab, rest := a + b, a[4..];
      FlipAppend(rest, b);
      assert ab[4..] == rest + b;
      assert Flip(ab) == [a[3], a[2], a[1], a[0]] + Flip(rest + b);
    }
  }

  lemma FlipWord(b: seq<Byte>)
    requires |b| == 4
    ensures Flip(b) == [b[3], b[2], b[1], b[0]]
  {
    assert b[4..] == [];
  }

  lemma {:induction false} FlipTwice(bs: seq<Byte>)
    requires |bs| % 4 == 0
    ensures Flip(Flip(bs)) == bs
    decreases |bs|
  {
    if bs != [] {
      var f, rest := Flip(bs), bs[4..];
      FlipTwice(rest);
      assert f[4..] == Flip(rest);
      assert bs == [bs[0], bs[1], bs[2], bs[3]] + rest;
    }
  }

  /** A `memcpy` of `src` to offset `at`. */
  function Splice(bs: seq<Byte>, at: nat, src: seq<Byte>): (r: seq<Byte>)
    requires at + |src| <= |bs|
    ensures |r| == |bs|
  {
    bs[..at] + src + bs[at + |src|..]
  }

  lemma SpliceAgain(bs: seq<Byte>, at: nat, first: seq<Byte>, second: seq<Byte>)
    requires at + |first| <= |bs| && |second| == |first|
    ensures Splice(Splice(bs, at, first), at, second) == Splice(bs, at, second)
  {
  }

  /** The number whose least significant byte comes first. */
  function LittleEndian(bs: seq<Byte>): nat {
    if bs == [] then 0 else bs[0] as int + 256 * LittleEndian(bs[1..])
  }

  /** The number whose least significant 32-bit limb comes first. */
  function Value(limbs: seq<U32>): nat {
    if limbs == [] then 0 else limbs[0] as int + 0x1_0000_0000 * Value(limbs[1..])
  }

  /** The limbs of a little-endian number as `bswap_32` of its memory words. */
  function Limbs(bs: seq<Byte>): (ls: seq<U32>)
    requires |bs| % 4 == 0
    ensures |ls| == |bs| / 4
  {
    if bs == [] then [] else [Swap32(Load32(bs[..4]))] + Limbs(bs[4..])
  }

  lemma {:induction false} LimbsAt(bs: seq<Byte>, i: nat)
    requires |bs| % 4 == 0 && 4 * i < |bs|
    ensures Limbs(bs)[i] == Swap32(Load32(bs[4 * i..4 * i + 4]))
    decreases i
  {
    hide Swap32, Load32;
    if i > 0 {
      var j, rest := i - 1, bs[4..];
      LimbsAt(rest, j);
      SliceOfRest(bs, 4, 4 * j, 4 * j + 4);
      assert Limbs(bs) == [Swap32(Load32(bs[..4]))] + Limbs(rest);
    }
  }

  lemma SwapIsLittleEndian(b: seq<Byte>)
    requires |b| == 4
    ensures Swap32(Load32(b)) == b[0] as int + 256 * (b[1] as int + 256 * (b[2] as int + 256 * b[3] as int))
  {
    var hi: int := (b[0] as int) * 256 + b[1] as int;
    var lo: int := (b[2] as int) * 256 + b[3] as int;
    var n: int := hi * 0x1_0000 + lo;
    assert Load32(b) == n && n % 0x1_0000 == lo && n / 0x1_0000 == hi;
    assert lo % 256 == b[3] as int && lo / 256 == b[2] as int && hi % 256 == b[1] as int && hi / 256 == b[0] as int;
  }

  /** Reading a buffer limb by limb gives the same number as reading it byte by byte. */
  lemma {:induction false} LimbsValue(bs: seq<Byte>)
    requires |bs| % 4 == 0
    ensures Value(Limbs(bs)) == LittleEndian(bs)
    decreases |bs|
  {
    hide Swap32, Load32;
    if bs != [] {
      LimbsValue(bs[4..]);
      SwapIsLittleEndian(bs[..4]);
      assert bs[1..][1..] == bs[2..] && bs[2..][1..] == bs[3..] && bs[3..][1..] == bs[4..];
      assert LittleEndian(bs[3..]) == bs[3] as int + 256 * LittleEndian(bs[4..]);
      assert LittleEndian(bs[2..]) == bs[2] as int + 256 * LittleEndian(bs[3..]);
      assert LittleEndian(bs[1..]) == bs[1] as int + 256 * LittleEndian(bs[2..]);
    }
  }

  /** The highest limb in which two numbers differ decides which is smaller. */
  lemma {:induction false} TopLimbDecides(a: seq<U32>, b: seq<U32>, k: nat)
    requires k < |a| == |b| && a[k + 1..] == b[k + 1..] && a[k] < b[k]
    ensures Value(a) < Value(b)
    decreases |a|
  {
    if k > 0 {
      assert a[1..][k..] == a[k + 1..] && b[1..][k..] == b[k + 1..];
      TopLimbDecides(a[1..], b[1..], k - 1);
    }
  }

  function Power256(n: nat): nat { if n == 0 then 1 else 256 * Power256(n - 1) }

  /** The byte at index i of a little-endian number weighs 256^i. */
  lemma {:induction false} LastByteWeighs(bs: seq<Byte>, b: Byte)
    ensures LittleEndian(bs + [b]) == LittleEndian(bs) + Power256(|bs|) * b as int
    decreases |bs|
  {
    if bs == [] {
      assert [b][1..] == [] && [] + [b] == [b];
    } else {
      var all := bs + [b];
      LastByteWeighs(bs[1..], b);
      assert all[1..] == bs[1..] + [b];
      Distribute(Power256(|bs| - 1), b as int);
    }
  }

  lemma Distribute(p: int, b: int)
    ensures 256 * (p * b) == (256 * p) * b
  {
  }

  /** `bswap_32` on a big-endian machine: in memory the number starts with its least significant byte. */
  lemma SwappedBytes(n: U32)
    ensures Store32(Swap32(n)) == [n % 256, n / 0x100 % 256, n / 0x1_0000 % 256, n / 0x100_0000]
  {
    var b := Store32(n);
    LoadStore(n);
    SwapReverses(b);
  }

  /** Byte 4k + i of flipped memory words is byte 4k + 3 - i. */
  lemma {:induction false} FlippedAt(bs: seq<Byte>, k: nat, i: nat)
    requires |bs| % 4 == 0 && 4 * k + 4 <= |bs| && i < 4
    ensures Flip(bs)[4 * k + i] == bs[4 * k + 3 - i]
    decreases k
  {
    if k > 0 {
      FlippedAt(bs[4..], k - 1, i);
      assert Flip(bs)[4 * k + i] == Flip(bs[4..])[4 * (k - 1) + i];
      assert bs[4..][4 * (k - 1) + 3 - i] == bs[4 * k + 3 - i];
    }
  }
}
