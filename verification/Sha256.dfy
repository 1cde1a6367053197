/** SHA-256 as FIPS 180-4 defines it. */
module Sha256 {
  import opened Words

  /** Eight words: the working variables a..h, or a hash value H0..H7. */
  datatype State = State(a: Word, b: Word, c: Word, d: Word, e: Word, f: Word, g: Word, h: Word)

  // Section 4.1.2

  function Ch(x: Word, y: Word, z: Word): Word { (x & y) ^ (!x & z) }

  function Maj(x: Word, y: Word, z: Word): Word { (x & y) ^ (x & z) ^ (y & z) }

  function BigSigma0(x: Word): Word { x.RotateRight(2) ^ x.RotateRight(13) ^ x.RotateRight(22) }

  function BigSigma1(x: Word): Word { x.RotateRight(6) ^ x.RotateRight(11) ^ x.RotateRight(25) }

  function SmallSigma0(x: Word): Word { x.RotateRight(7) ^ x.RotateRight(18) ^ (x >> 3) }

  function SmallSigma1(x: Word): Word { x.RotateRight(17) ^ x.RotateRight(19) ^ (x >> 10) }

  // Section 4.2.2

  function K(t: nat): Word
    requires t < 64
  {
    if t < 8 then [0x428a2f98, 0x71374491, 0xb5c0fbcf, 0xe9b5dba5, 0x3956c25b, 0x59f111f1, 0x923f82a4, 0xab1c5ed5][t]
    else if t < 16 then [0xd807aa98, 0x12835b01, 0x243185be, 0x550c7dc3, 0x72be5d74, 0x80deb1fe, 0x9bdc06a7, 0xc19bf174][t - 8]
    else if t < 24 then [0xe49b69c1, 0xefbe4786, 0x0fc19dc6, 0x240ca1cc, 0x2de92c6f, 0x4a7484aa, 0x5cb0a9dc, 0x76f988da][t - 16]
    else if t < 32 then [0x983e5152, 0xa831c66d, 0xb00327c8, 0xbf597fc7, 0xc6e00bf3, 0xd5a79147, 0x06ca6351, 0x14292967][t - 24]
    else if t < 40 then [0x27b70a85, 0x2e1b2138, 0x4d2c6dfc, 0x53380d13, 0x650a7354, 0x766a0abb, 0x81c2c92e, 0x92722c85][t - 32]
    else if t < 48 then [0xa2bfe8a1, 0xa81a664b, 0xc24b8b70, 0xc76c51a3, 0xd192e819, 0xd6990624, 0xf40e3585, 0x106aa070][t - 40]
    else if t < 56 then [0x19a4c116, 0x1e376c08, 0x2748774c, 0x34b0bcb5, 0x391c0cb3, 0x4ed8aa4a, 0x5b9cca4f, 0x682e6ff3][t - 48]
    else [0x748f82ee, 0x78a5636f, 0x84c87814, 0x8cc70208, 0x90befffa, 0xa4506ceb, 0xbef9a3f7, 0xc67178f2][t - 56]
  }

  // Section 5.3.3

  const INITIAL: State := State(
    0x6a09e667, 0xbb67ae85, 0x3c6ef372, 0xa54ff53a, 0x510e527f, 0x9b05688c, 0x1f83d9ab, 0x5be0cd19
  )

  // Section 6.2.2

  function NextScheduled(w2: Word, w7: Word, w15: Word, w16: Word): Word {
    Plus(Plus(Plus(SmallSigma1(w2), w7), SmallSigma0(w15)), w16)
  }

  /** Word t of the message schedule; the first |block| words are the block itself. */
  function Schedule(block: seq<Word>, t: nat): Word
    requires |block| <= 16 && (t < |block| || |block| == 16)
  {
    if t < |block| then block[t]
    else NextScheduled(Schedule(block, t - 2), Schedule(block, t - 7), Schedule(block, t - 15), Schedule(block, t - 16))
  }

  function Temp1(e: Word, f: Word, g: Word, h: Word, k: Word, w: Word): Word {
    Plus(Plus(Plus(Plus(h, BigSigma1(e)), Ch(e, f, g)), k), w)
  }

  function Temp2(a: Word, b: Word, c: Word): Word { Plus(BigSigma0(a), Maj(a, b, c)) }

  function Round(s: State, k: Word, w: Word): State {
    var t1 := Temp1(s.e, s.f, s.g, s.h, k, w);
    State(Plus(t1, Temp2(s.a, s.b, s.c)), s.a, s.b, s.c, Plus(s.d, t1), s.e, s.f, s.g)
  }

  /** The working variables after the first t of the 64 rounds. */
  function Rounds(chain: State, block: seq<Word>, t: nat): State
    requires |block| <= 16 && t <= 64 && (t <= |block| || |block| == 16)
  {
    if t == 0 then chain else Round(Rounds(chain, block, t - 1), K(t - 1), Schedule(block, t - 1))
  }

  function Add(x: State, y: State): State {
    State(Plus(x.a, y.a), Plus(x.b, y.b), Plus(x.c, y.c), Plus(x.d, y.d),
          Plus(x.e, y.e), Plus(x.f, y.f), Plus(x.g, y.g), Plus(x.h, y.h))
  }

  function Compress(chain: State, block: seq<Word>): State
    requires |block| == 16
  {
    Add(Rounds(chain, block, 64), chain)
  }

  /** The hash value after a whole number of 64-byte blocks. */
  function HashBlocks(chain: State, bs: seq<Byte>): State
    requires |bs| % 64 == 0
    decreases |bs|
  {
    if bs == [] then chain else HashBlocks(Compress(chain, WordsOf(bs[..64])), bs[64..])
  }

  // Section 5.1.1

  /** A bit length as 64 big-endian bits. */
  function LengthBytes(n: nat): (b: seq<Byte>)
    requires n < 0x1_0000_0000_0000_0000
    ensures |b| == 8
  {
    Store32(n / 0x1_0000_0000) + Store32(n % 0x1_0000_0000)
  }

  function Zeros(n: nat): (z: seq<Byte>)
    ensures |z| == n && forall i :: 0 <= i < n ==> z[i] == 0
  {
    seq(n, _ => 0)
  }

  /** How many zero bytes follow the one bit: the fewest that fill the last block. */
  function ZeroCount(n: nat): (k: nat)
    ensures k < 64 && (n + 1 + k + 8) % 64 == 0
  {
    (119 - n % 64) % 64
  }

  /** The message, a one bit, zeros, the bit length. */
  function Pad(m: seq<Byte>): (p: seq<Byte>)
    requires |m| < 0x2000_0000_0000_0000
    ensures |p| == |m| + 1 + ZeroCount(|m|) + 8 && |p| % 64 == 0
  {
    m + [0x80] + Zeros(ZeroCount(|m|)) + LengthBytes(8 * |m|)
  }

  function StateWords(s: State): seq<Word> { [s.a, s.b, s.c, s.d, s.e, s.f, s.g, s.h] }

  function StateOf(ws: seq<Word>): State
    requires |ws| == 8
  {
    State(ws[0], ws[1], ws[2], ws[3], ws[4], ws[5], ws[6], ws[7])
  }

  /** A hash value as 32 bytes. */
  function Digest(s: State): (bs: seq<Byte>)
    ensures |bs| == 32
  {
    AllBytesOf(StateWords(s))
  }

  function Hash(m: seq<Byte>): (d: seq<Byte>)
    requires |m| < 0x2000_0000_0000_0000
    ensures |d| == 32
  {
    Digest(HashBlocks(INITIAL, Pad(m)))
  }

  function DoubleHash(m: seq<Byte>): (d: seq<Byte>)
    requires |m| < 0x2000_0000_0000_0000
    ensures |d| == 32
  {
    Hash(Hash(m))
  }

  // Facts

  /** Hashing is a left fold over blocks. */
  lemma {:induction false} HashBlocksAppend(chain: State, a: seq<Byte>, b: seq<Byte>)
    requires |a| % 64 == 0 && |b| % 64 == 0
    ensures HashBlocks(chain, a + b) == HashBlocks(HashBlocks(chain, a), b)
    decreases |a|
  {
    hide Compress, WordsOf;
    if a == [] {
      assert a + b == b;
    } else {
      var ab, rest := a + b, a[64..];
      HashBlocksAppend(Compress(chain, WordsOf(a[..64])), rest, b);
      assert ab[..64] == a[..64];
      assert ab[64..] == rest + b;
    }
  }

  lemma OneBlock(chain: State, bs: seq<Byte>)
    requires |bs| == 64
    ensures HashBlocks(chain, bs) == Compress(chain, WordsOf(bs))
  {
    hide Compress, WordsOf;
    assert bs[..64] == bs && bs[64..] == [];
  }

  /** Rounds already done do not depend on words still to come. */
  lemma {:induction false} RoundsPrefix(chain: State, block: seq<Word>, w: Word, t: nat)
    requires t <= |block| < 16
    ensures Rounds(chain, block + [w], t) == Rounds(chain, block, t)
  {
    hide Round;
    if t > 0 {
      RoundsPrefix(chain, block, w, t - 1);
    }
  }
}
