/** A job with a known good nonce: its header is that of the first block of the Bitcoin chain, and its
    merkle window lies behind the 80 bytes that are hashed. */
module KnownJob {
  import opened Words
  import opened Bytes
  import opened Sha256
  import opened WorkSpec
  import opened KnownAnswer
  import DblSha
  import Sha256Driver

  const NONCE: U32 := 0x1dac2b7c

  function FirstWords(): (ws: seq<Word>)
    ensures |ws| == 8
  {
    [W0(0), W0(1), W0(2), W0(3), W0(4), W0(5), W0(6), W0(7)]
  }

  function NextWords(): (ws: seq<Word>)
    ensures |ws| == 8
  {
    [W0(8), W0(9), W0(10), W0(11), W0(12), W0(13), W0(14), W0(15)]
  }

  function EndWords(): (ws: seq<Word>)
    ensures |ws| == 3
  {
    [W1(0), W1(1), W1(2)]
  }

  // The header as the host sends it, every word flipped

  function FirstChunk(): Bytes32 { Flip(AllBytesOf(FirstWords())) }

  function NextChunk(): Bytes32 { Flip(AllBytesOf(NextWords())) }

  function LastChunk(): Bytes32 { Flip(AllBytesOf(EndWords())) + seq(20, _ => 0) }

  function Easiest(): Bytes32 { seq(32, _ => 0xff) }

  /** What makes a job the known one. */
  predicate Known(j: Job) {
    && Sized(j) && InRange(j) && j.merkleOffset == 96 && j.target == Easiest()
    && j.header[..32] == FirstChunk() && j.header[32..64] == NextChunk() && j.header[64..96] == LastChunk()
  }

  /** The first sixteen words of a header as they are hashed. */
  function HashedWords(header: seq<Byte>): seq<Word>
    requires |header| == HEADER_SIZE
  {
    WordsOf(Flip(header[..64]))
  }

  /** The twelve bytes before the nonce as they are hashed. */
  function HashedEnd(header: seq<Byte>): seq<Byte>
    requires |header| == HEADER_SIZE
  {
    Flip(header[64..76])
  }

  lemma KnownWords(j: Job, nonce2: U32)
    requires Known(j)
    ensures HashedWords(HeaderWith(j, nonce2)) == FirstWords() + NextWords() && HashedEnd(HeaderWith(j, nonce2)) == AllBytesOf(EndWords())
  {
    hide Flip, WordsOf, AllBytesOf, MerkleRoot, FirstWords, NextWords, EndWords;
    var h := HeaderWith(j, nonce2);
    assert h[..96] == j.header[..96];
    assert h[..64] == j.header[..32] + j.header[32..64];
    FlipAppend(FirstChunk(), NextChunk());
    FlipTwice(AllBytesOf(FirstWords()));
    FlipTwice(AllBytesOf(NextWords()));
    WordsOfAppend(AllBytesOf(FirstWords()), AllBytesOf(NextWords()));
    WordsOfAllBytesOf(FirstWords());
    WordsOfAllBytesOf(NextWords());
    assert h[64..76] == j.header[64..96][..12] == Flip(AllBytesOf(EndWords()));
    FlipTwice(AllBytesOf(EndWords()));
  }

  lemma NonceWord()
    ensures WordsOf(Store32(NONCE)) == [W1(3)]
  {
    assert Store32(NONCE) == [0x1d, 0xac, 0x2b, 0x7c];
    assert WordOf([0x1d, 0xac, 0x2b, 0x7c]) == 0x1dac2b7c;
    assert Store32(NONCE)[..4] == Store32(NONCE) && Store32(NONCE)[4..] == [];
  }

  lemma PaddingBytes()
    ensures HeaderPadding()[0] == 0x80 && HeaderPadding()[46] == 2 && HeaderPadding()[47] == 0x80
    ensures forall i :: 0 < i < 46 ==> HeaderPadding()[i] == 0
  {
    assert LengthBytes(640) == [0, 0, 0, 0, 0, 0, 2, 0x80];
  }

  lemma PaddingValues()
    ensures WordOf([0x80, 0, 0, 0]) == 0x8000_0000 && WordOf([0, 0, 2, 0x80]) == 0x280 && WordOf([0, 0, 0, 0]) == 0
  {
  }

  lemma PaddingWords()
    ensures |WordsOf(HeaderPadding())| == 12
    ensures forall i :: 0 <= i < 12 ==> WordsOf(HeaderPadding())[i] == if i == 0 then 0x8000_0000 else if i == 11 then 0x280 else 0
  {
    hide WordOf, WordsOf, HeaderPadding;
    var p := HeaderPadding();
    PaddingBytes();
    PaddingValues();
    forall i: nat | i < 12 ensures WordsOf(p)[i] == if i == 0 then 0x8000_0000 else if i == 11 then 0x280 else 0 {
      WordsOfAt(p, i);
      DblSha.Four(p, 4 * i);
    }
  }

  /** The last sixteen words as they are hashed. */
  lemma LastBlock()
    ensures WordsOf(AllBytesOf(EndWords()) + Store32(NONCE) + HeaderPadding()) == EndWords() + [W1(3)] + WordsOf(HeaderPadding())
  {
    hide WordsOf, AllBytesOf, EndWords, HeaderPadding, Store32, W1;
    WordsOfAppend(AllBytesOf(EndWords()) + Store32(NONCE), HeaderPadding());
    WordsOfAppend(AllBytesOf(EndWords()), Store32(NONCE));
    WordsOfAllBytesOf(EndWords());
    NonceWord();
  }

  lemma FirstTable(i: nat)
    requires i < 16
    ensures (FirstWords() + NextWords())[i] == W0(i)
  {
  }

  lemma LastTable(i: nat)
    requires i < 16
    ensures (EndWords() + [W1(3)] + WordsOf(HeaderPadding()))[i] == W1(i)
  {
    hide WordsOf, HeaderPadding;
    PaddingWords();
  }

  lemma TailTable(i: nat)
    requires 8 <= i < 16
    ensures DblSha.TAIL[i - 8] == W2(i)
  {
  }

  /** The digest of the known header, hashed again, ends with a zero word. */
  lemma EndsWithZero(first: seq<Word>, last: seq<Word>)
    requires first == FirstWords() + NextWords() && last == EndWords() + [W1(3)] + WordsOf(HeaderPadding())
    ensures |first| == |last| == 16
    ensures Compress(INITIAL, DblSha.SecondBlock(Compress(Compress(INITIAL, first), last))).h == 0
  {
    hide FirstWords, NextWords, EndWords, WordsOf, HeaderPadding, W0, W1, W2, Compress;
    PaddingWords();
    forall i: nat | i < 16 ensures first[i] == W0(i) && last[i] == W1(i) {
      FirstTable(i);
      LastTable(i);
    }
    var d := Compress(Compress(INITIAL, first), last);
    var second := DblSha.SecondBlock(d);
    assert second[..8] == StateWords(d);
    forall i: nat | 8 <= i < 16 ensures second[i] == W2(i) {
      TailTable(i);
    }
    LastWordZero(first, last, second);
  }

  lemma DigestEnd(s: State)
    requires s.h == 0
    ensures Digest(s)[28..] == [0, 0, 0, 0]
  {
    ZeroWord();
    hide BytesOf;
    var ws := StateWords(s);
    assert AllBytesOf(ws) == BytesOf(ws[0]) + AllBytesOf(ws[1..]);
    assert ws[1..][1..][1..][1..][1..][1..][1..] == [0];
    SplitBytes(ws, 7);
    assert ws[7..] == [0];
    assert AllBytesOf([0]) == BytesOf(0) + AllBytesOf([]);
    assert ws == ws[..7] + ws[7..];
  }

  lemma ZeroWord()
    ensures BytesOf(0) == [0, 0, 0, 0]
  {
  }

  lemma {:induction false} SplitBytes(ws: seq<Word>, n: nat)
    requires n <= |ws|
    ensures AllBytesOf(ws)[4 * n..] == AllBytesOf(ws[n..])
    decreases n
  {
    hide BytesOf;
    if n == 0 {
      assert ws[0..] == ws;
    } else {
      SplitBytes(ws[1..], n - 1);
      assert ws[1..][n - 1..] == ws[n..];
      assert AllBytesOf(ws)[4 * n..] == AllBytesOf(ws[1..])[4 * (n - 1)..];
    }
  }

  /** The hash the known header has, whatever the nonce2. */
  lemma KnownHash(j: Job, nonce2: U32)
    requires Known(j)
    ensures HeaderHash(HeaderWith(j, nonce2), NONCE)[28..] == [0, 0, 0, 0]
  {
    hide Flip, WordsOf, AllBytesOf, HeaderWith, Compress, Digest, HashBlocks, FirstWords, NextWords, EndWords, HeaderPadding, Store32,
      HashedHeader, W1, DblSha.SecondBlock, Pad;
    var h := HeaderWith(j, nonce2);
    var first, rest := Flip(h[..64]), LastWords(h, NONCE);
    KnownWords(j, nonce2);
    FlippedHeader(h, NONCE);
    TwoBlocks(first, rest);
    LastBlock();
    var f, l := WordsOf(first), WordsOf(rest + HeaderPadding());
    EndsWithZero(f, l);
    var d := Compress(Compress(INITIAL, f), l);
    Sha256Driver.SecondHash(d);
    DigestEnd(Compress(INITIAL, DblSha.SecondBlock(d)));
  }

  /** A hash that ends with a zero word is below the easiest target. */
  lemma BelowEasiest(hash: Bytes32)
    requires hash[28..] == [0, 0, 0, 0]
    ensures Load32(hash[28..]) == 0 && LittleEndian(hash) < LittleEndian(Easiest())
  {
    hide Limbs, Value, LittleEndian, Load32, Swap32;
    var t := Easiest();
    LimbsValue(hash);
    LimbsValue(t);
    LimbsAt(hash, 7);
    LimbsAt(t, 7);
    assert hash[28..32] == hash[28..] && t[28..32] == [0xff, 0xff, 0xff, 0xff];
    ExtremeWords();
    ExtremeSwaps();
    assert Limbs(hash)[8..] == Limbs(t)[8..];
    TopLimbDecides(Limbs(hash), Limbs(t), 7);
  }

  /** The known nonce is good for a known job. */
  lemma KnownNonce(j: Job, nonce2: U32)
    requires Known(j)
    ensures Check(j, nonce2, NONCE) == Diff
  {
    hide HeaderHash, HeaderWith, LittleEndian, Load32, FirstChunk, NextChunk, LastChunk, Easiest;
    KnownHash(j, nonce2);
    BelowEasiest(HeaderHash(HeaderWith(j, nonce2), NONCE));
  }

  /** No nonce is good for a job whose target is zero. */
  lemma NeverGood(j: Job, nonce2: U32, nonce: U32)
    requires Sized(j) && InRange(j) && j.target == seq(32, _ => 0)
    ensures Check(j, nonce2, nonce) != Diff
  {
    hide HeaderHash, HeaderWith, Load32;
    ZeroValue(32);
  }

  lemma {:induction false} ZeroValue(n: nat)
    ensures LittleEndian(seq(n, _ => 0)) == 0
    decreases n
  {
    if n > 0 {
      ZeroValue(n - 1);
      assert seq(n, _ => 0)[1..] == seq(n - 1, _ => 0);
    }
  }
}
