/** Bytes and 32-bit words, and the big-endian layout of a word in LM32 memory. */
module Words {
  type Byte = n: int | 0 <= n < 256

  /** A word in a hardware register. */
  type Word = bv32

  /** A C `uint32_t` used for arithmetic (nonces, lengths, target limbs). */
  type U32 = n: int | 0 <= n < 0x1_0000_0000

  /** Addition modulo 2^32. */
  function Plus(x: Word, y: Word): Word { x + y }

  /** The eight bits of a byte, and the byte they make. */
  function BitsOf(b: Byte): bv8 { b as bv8 }

  function ByteOf(x: bv8): Byte { x as int }

  lemma BitsOfByteOf(x: bv8)
    ensures BitsOf(ByteOf(x)) == x
  {
  }

  /** Four bytes side by side, most significant first, and apart again. */
  function Join(a: bv8, b: bv8, c: bv8, d: bv8): Word {
    ((a as bv32) << 24) | ((b as bv32) << 16) | ((c as bv32) << 8) | (d as bv32)
  }

  function Part(w: Word, k: nat): bv8
    requires k < 4
  {
    if k == 0 then ((w >> 24) & 0xff) as bv8
    else if k == 1 then ((w >> 16) & 0xff) as bv8
    else if k == 2 then ((w >> 8) & 0xff) as bv8
    else (w & 0xff) as bv8
  }

  lemma JoinParts(w: Word)
    ensures Join(Part(w, 0), Part(w, 1), Part(w, 2), Part(w, 3)) == w
  {
  }

  /** The word whose four memory bytes are `b`, as the big-endian LM32 stores it in a device register. */
  function WordOf(b: seq<Byte>): Word
    requires |b| == 4
  {
    Join(BitsOf(b[0]), BitsOf(b[1]), BitsOf(b[2]), BitsOf(b[3]))
  }

  /** The four memory bytes of a word read from a device register. */
  function BytesOf(w: Word): (b: seq<Byte>)
    ensures |b| == 4
  {
    [ByteOf(Part(w, 0)), ByteOf(Part(w, 1)), ByteOf(Part(w, 2)), ByteOf(Part(w, 3))]
  }

  lemma WordOfBytesOf(w: Word)
    ensures WordOf(BytesOf(w)) == w
  {
    hide Join, Part, BitsOf, ByteOf;
    JoinParts(w);
    BitsOfByteOf(Part(w, 0));
    BitsOfByteOf(Part(w, 1));
    BitsOfByteOf(Part(w, 2));
    BitsOfByteOf(Part(w, 3));
  }

  /** A byte string as big-endian words. */
  function WordsOf(bs: seq<Byte>): (ws: seq<Word>)
    requires |bs| % 4 == 0
    ensures |ws| == |bs| / 4
  {
    if bs == [] then [] else [WordOf(bs[..4])] + WordsOf(bs[4..])
  }

  /** Words as a big-endian byte string. */
  function AllBytesOf(ws: seq<Word>): (bs: seq<Byte>)
    ensures |bs| == 4 * |ws|
  {
    if ws == [] then [] else BytesOf(ws[0]) + AllBytesOf(ws[1..])
  }

  lemma {:induction false} WordsOfAllBytesOf(ws: seq<Word>)
    ensures WordsOf(AllBytesOf(ws)) == ws
  {
    if ws != [] {
      WordsOfAllBytesOf(ws[1..]);
      WordOfBytesOf(ws[0]);
      var bs := AllBytesOf(ws);
      assert bs[..4] == BytesOf(ws[0]) && bs[4..] == AllBytesOf(ws[1..]);
    }
  }

  lemma {:induction false} WordsOfAt(bs: seq<Byte>, i: nat)
    requires |bs| % 4 == 0 && 4 * i < |bs|
    ensures WordsOf(bs)[i] == WordOf(bs[4 * i..4 * i + 4])
    decreases i
  {
    hide WordOf;
    if i > 0 {
      var j, rest := i - 1, bs[4..];
      WordsOfAt(rest, j);
      SliceOfRest(bs, 4, 4 * j, 4 * j + 4);
      assert WordsOf(bs) == [WordOf(bs[..4])] + WordsOf(rest);
    }
  }

  lemma SliceOfRest<T>(s: seq<T>, n: nat, lo: nat, hi: nat)
    requires lo <= hi && n + hi <= |s|
    ensures s[n..][lo..hi] == s[n + lo..n + hi]
  {
  }

  lemma {:induction false} WordsOfAppend(a: seq<Byte>, b: seq<Byte>)
    requires |a| % 4 == 0 && |b| % 4 == 0
    ensures WordsOf(a + b) == WordsOf(a) + WordsOf(b)
    decreases |a|
  {
    hide WordOf;
    if a == [] {
      assert a + b == b;
    } else {
      var rest := a[4..];
      WordsOfAppend(rest, b);
      var ab := a + b;
      assert ab[..4] == a[..4];
      assert ab[4..] == rest + b;
      assert WordsOf(ab) == [WordOf(a[..4])] + WordsOf(rest + b);
      assert WordsOf(a) == [WordOf(a[..4])] + WordsOf(rest);
    }
  }

  /** Memory image of a `uint32_t` on the big-endian LM32: most significant byte first. */
  function Store32(n: U32): (b: seq<Byte>)
    ensures |b| == 4
  {
    [n / 0x100_0000, n / 0x1_0000 % 256, n / 0x100 % 256, n % 256]
  }

  /** Value of a `uint32_t` in memory. */
  function Load32(b: seq<Byte>): U32
    requires |b| == 4
  {
    (b[0] as int) * 0x100_0000 + (b[1] as int) * 0x1_0000 + (b[2] as int) * 0x100 + b[3] as int
  }

  lemma LoadStore(n: U32)
    ensures Load32(Store32(n)) == n
  {
    var a := n / 256;
    var b := a / 256;
    assert n / 0x1_0000 == b && n / 0x100_0000 == b / 256;
  }

  lemma StoreLoad(b: seq<Byte>)
    requires |b| == 4
    ensures Store32(Load32(b)) == b
  {
    var x: int := (b[0] as int) * 256 + b[1] as int;
    var y: int := x * 256 + b[2] as int;
    var n: int := y * 256 + b[3] as int;
    assert Load32(b) == n;
    assert n / 256 == y && y / 256 == x && x / 256 == b[0];
    assert n / 0x1_0000 == x && n / 0x100_0000 == b[0];
  }
}
