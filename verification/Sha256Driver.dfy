/** The firmware driver of the SHA-256 peripheral. `unsigned int` counts are below 2^32. */
module Sha256Driver {
  import opened Words
  import opened Sha256
  import opened DblSha
  import opened ShaUnit
  import SC = ShaCore

  /** The bytes of a message that fill whole blocks. */
  function Whole(count: U32): (n: U32)
    ensures n % 64 == 0 && n <= count && count - n == count % 64
  {
    count / 64 * 64
  }

  /** The length field the driver writes: its 32-bit product drops the high bits. */
  function LengthField(count: U32): (b: seq<Byte>)
    ensures |b| == 8
  {
    [0, 0, 0, 0] + Store32(8 * count % 0x1_0000_0000)
  }

  /** The bytes after the last whole block: what is left of the message, and the driver's padding. */
  function Tail(rem: seq<Byte>, count: U32): (t: seq<Byte>)
    requires |rem| == count % 64
    ensures |t| % 64 == 0
  {
    rem + [0x80] + Zeros(ZeroCount(count)) + LengthField(count)
  }

  function TailWords(rem: seq<Byte>, count: U32): (ws: seq<Word>)
    requires |rem| == count % 64
    ensures |rem| <= 55 ==> |ws| == 16
  {
    WordsOf(Tail(rem, count))
  }

  /** The field holds eight times the count modulo 2^32, at every count. */
  lemma LengthFieldValue(count: U32)
    ensures LengthField(count)[..4] == [0, 0, 0, 0] && Load32(LengthField(count)[4..]) == 8 * count as int % 0x1_0000_0000
  {
    hide Store32, Load32;
    LoadStore(8 * count % 0x1_0000_0000);
    assert LengthField(count)[4..] == Store32(8 * count % 0x1_0000_0000);
  }

  /** The driver's length field is the standard's exactly below 2^29 bytes. */
  lemma LengthFieldExact(count: U32)
    ensures LengthField(count) == LengthBytes(8 * count) <==> count < 0x2000_0000
  {
    var bits: int := 8 * count;
    var high, low := bits / 0x1_0000_0000, bits % 0x1_0000_0000;
    assert LengthBytes(bits) == Store32(high) + Store32(low);
    assert LengthBytes(bits)[..4] == Store32(high) && LengthField(count)[..4] == [0, 0, 0, 0];
    if high == 0 {
      assert Store32(0) == [0, 0, 0, 0];
    } else {
      LoadStore(high);
      assert Load32([0, 0, 0, 0]) == 0;
    }
  }

  /** Whole blocks and tail together are the padded message. */
  lemma TailIsPadding(m: seq<Byte>)
    requires |m| < 0x2000_0000
    ensures var n := Whole(|m|); m[..n] + Tail(m[n..], |m|) == Pad(m)
  {
    hide LengthField, LengthBytes, Zeros;
    LengthFieldExact(|m|);
    var n := Whole(|m|);
    assert m == m[..n] + m[n..];
  }

  /** The registers no block changes. */
  predicate Kept(r: Registers, t: Registers) { t.hx == r.hx && t.hashCnt == r.hashCnt && t.preCnt == r.preCnt }

  method Init(dev: Unit)
    requires dev.Valid() && Idle(dev.phase)
    modifies dev.Repr()
    ensures dev.Valid() && dev.phase == Loading(INITIAL, []) && dev.r.hx == INITIAL
    ensures dev.r.hashCnt == 0 && dev.r.preCnt == 0
  {
    dev.WriteRst();
    dev.WriteInit();
  }

  method AwaitDone(dev: Unit)
    requires dev.Valid() && dev.phase.Busy?
    modifies dev.Repr()
    ensures dev.Valid() && dev.phase == old(dev.phase).(left := 0)
    ensures Kept(old(dev.r), dev.r)
  {
    var status := dev.ReadCmd();
    while status & CMD_DONE == 0
      invariant dev.Valid() && Later(old(dev.phase), dev.phase)
      invariant status & CMD_DONE != 0 ==> dev.phase.left == 0
      invariant Kept(old(dev.r), dev.r)
      decreases status & CMD_DONE == 0, dev.phase.left
    {
      status := dev.ReadCmd();
    }
  }

  method WriteBlock(dev: Unit, block: seq<Byte>)
    requires |block| == 64 && dev.Valid() && Idle(dev.phase)
    modifies dev.Repr()
    ensures dev.Valid() && dev.phase == Busy(old(Held(dev.phase)), WordsOf(block), 0)
    ensures Kept(old(dev.r), dev.r)
  {
    hide Compress, WordsOf, WordOf, Unit.Valid;
    ghost var c := Held(dev.phase);
    var i := 0;
    while i < 64
      invariant 0 <= i <= 64 && i % 4 == 0
      invariant dev.Valid()
      invariant if i == 0 then dev.phase == old(dev.phase)
                else if i < 64 then dev.phase == Loading(c, WordsOf(block[..i]))
                else dev.phase == Busy(c, WordsOf(block), 0)
      invariant Kept(old(dev.r), dev.r)
    {
      var tmp := block[i..i + 4];
      dev.WriteDin(WordOf(tmp));
      WordsOfNext(block, i);
      if (i + 4) % 64 == 0 {
        AwaitDone(dev);
      }
      i := i + 4;
    }
  }

  lemma WordsOfNext(block: seq<Byte>, i: nat)
    requires i % 4 == 0 && i + 4 <= |block|
    ensures WordsOf(block[..i + 4]) == WordsOf(block[..i]) + [WordOf(block[i..i + 4])]
    ensures i + 4 == |block| ==> block[..i + 4] == block
  {
    hide WordOf;
    var tmp := block[i..i + 4];
    assert block[..i + 4] == block[..i] + tmp;
    WordsOfAppend(block[..i], tmp);
    assert tmp[..4] == tmp && tmp[4..] == [];
    assert WordsOf(tmp) == [WordOf(tmp)];
  }

  /** The bytes `sha256_update` hashes: the whole blocks, but from 2^31 bytes on its signed loop bound is
      negative. */
  function Folded(count: U32): (n: U32)
    ensures n % 64 == 0 && n <= count && (count < 0x8000_0000 ==> n == Whole(count))
  {
    if count < 0x8000_0000 then Whole(count) else 0
  }

  method Update(dev: Unit, input: seq<Byte>, count: U32)
    requires dev.Valid() && Idle(dev.phase) && count <= |input|
    modifies dev.Repr()
    ensures dev.Valid() && Idle(dev.phase)
    ensures Held(dev.phase) == HashBlocks(old(Held(dev.phase)), input[..Folded(count)])
    ensures Kept(old(dev.r), dev.r)
    ensures if Folded(count) == 0 then dev.phase == old(dev.phase) else dev.phase.Busy?
  {
    hide Compress, WordsOf, Unit.Valid;
    ghost var c := Held(dev.phase);
    var blocks := count / 64;
    var product: int := blocks * 64;
    var bound := if product < 0x8000_0000 then product else product - 0x1_0000_0000;
    var i := 0;
    assert input[..0] == [];
    while i < bound
      invariant 0 <= i <= Folded(count) && i % 64 == 0
      invariant dev.Valid() && Idle(dev.phase) && Held(dev.phase) == HashBlocks(c, input[..i])
      invariant Kept(old(dev.r), dev.r)
      invariant if i == 0 then dev.phase == old(dev.phase) else dev.phase.Busy?
    {
      var block := input[i..i + 64];
      WriteBlock(dev, block);
      assert input[..i + 64] == input[..i] + block;
      HashBlocksAppend(c, input[..i], block);
      OneBlock(HashBlocks(c, input[..i]), block);
      i := i + 64;
    }
  }

  /** Stores `count * 8` at the end of a block, as the driver's four assignments do. */
  method StoreLength(block: array<Byte>, count: U32)
    requires block.Length == 64
    modifies block
    ensures block[..56] == old(block[..56])
    ensures old(block[56..60]) == [0, 0, 0, 0] ==> block[56..] == LengthField(count)
  {
    var bits: int := 8 * count % 0x1_0000_0000;
    block[60], block[61], block[62], block[63] :=
      bits / 0x100_0000, bits / 0x1_0000 % 256, bits / 0x100 % 256, bits % 256;
  }

  /** Copies the remainder and the 0x80 mark into a cleared block. */
  method StoreRemainder(block: array<Byte>, rem: seq<Byte>)
    requires block.Length == 64 && |rem| < 64 && forall j :: 0 <= j < 64 ==> block[j] == 0
    modifies block
    ensures block[..] == rem + [0x80] + Zeros(63 - |rem|)
  {
    var i := 0;
    while i < |rem|
      invariant 0 <= i <= |rem| && block[..i] == rem[..i]
      invariant forall j :: i <= j < 64 ==> block[j] == 0
    {
      block[i] := rem[i];
      i := i + 1;
    }
    block[i] := 0x80;
  }

  /** Hashes the remainder of the message and the padding, in one block or two. */
  method Padding(dev: Unit, input: seq<Byte>, count: U32)
    requires dev.Valid() && Idle(dev.phase) && |input| == count % 64
    modifies dev.Repr()
    ensures dev.Valid() && Idle(dev.phase) && dev.phase.Busy?
    ensures Held(dev.phase) == HashBlocks(old(Held(dev.phase)), Tail(input, count))
    ensures |input| <= 55 ==> dev.phase.chain == old(Held(dev.phase)) && dev.phase.words == TailWords(input, count)
    ensures Kept(old(dev.r), dev.r)
  {
    hide Compress, WordsOf, Unit.Valid, LengthField, HashBlocks;
    ghost var c := Held(dev.phase);
    var block, block1 := new Byte[64](_ => 0), new Byte[64](_ => 0);
    ghost var t := Tail(input, count);
    StoreRemainder(block, input);
    if 55 < |input| {
      StoreLength(block1, count);
      var first, second := block[..], block1[..];
      assert t == first + second;
      WriteBlock(dev, first);
      WriteBlock(dev, second);
      HashBlocksAppend(c, first, second);
      OneBlock(c, first);
      OneBlock(HashBlocks(c, first), second);
    } else {
      StoreLength(block, count);
      var only := block[..];
      assert t == only;
      WriteBlock(dev, only);
      OneBlock(c, only);
    }
  }

  lemma {:induction false} AllBytesOfNext(ws: seq<Word>, i: nat)
    requires i < |ws|
    ensures AllBytesOf(ws[..i + 1]) == AllBytesOf(ws[..i]) + BytesOf(ws[i])
  {
    hide BytesOf;
    if i == 0 {
      assert ws[..1][1..] == [] && ws[..0] == [];
    } else {
      AllBytesOfNext(ws[1..], i - 1);
      assert ws[..i + 1][1..] == ws[1..][..i] && ws[..i][1..] == ws[1..][..i - 1];
    }
  }

  /** `memcpy` of one register word into a byte buffer. */
  method StoreWord(state: array<Byte>, i: nat, w: Word)
    requires i + 4 <= state.Length
    modifies state
    ensures state[..i + 4] == old(state[..i]) + BytesOf(w) && state[i + 4..] == old(state[i + 4..])
  {
    hide BytesOf;
    var b := BytesOf(w);
    state[i], state[i + 1], state[i + 2], state[i + 3] := b[0], b[1], b[2], b[3];
  }

  /** Reads the next digest word into the buffer. */
  method ReadWord(dev: Unit, state: array<Byte>, i: nat)
    requires dev.Valid() && Idle(dev.phase) && i + 4 <= state.Length && dev.r.hashCnt < 8
    modifies dev.Repr(), state
    ensures dev.Valid() && Idle(dev.phase) && Held(dev.phase) == old(Held(dev.phase))
    ensures dev.r.hashCnt == (old(dev.r.hashCnt) + 1) % 8
    ensures state[..i + 4] == old(state[..i]) + BytesOf(StateWords(Held(dev.phase))[old(dev.r.hashCnt)])
    ensures forall j :: i + 4 <= j < state.Length ==> state[j] == old(state[j])
  {
    hide Unit.Valid, BytesOf, StateWords;
    var tmp := dev.ReadHash();
    ghost var rest := state[i + 4..];
    StoreWord(state, i, tmp);
    assert forall j :: i + 4 <= j < state.Length ==> state[j] == state[i + 4..][j - i - 4] == rest[j - i - 4];
  }

  /** Reads the digest into the first 32 bytes of `state`. */
  method Final(dev: Unit, state: array<Byte>)
    requires dev.Valid() && Idle(dev.phase) && dev.r.hashCnt == 0 && state.Length >= 32
    modifies dev.Repr(), state
    ensures dev.Valid() && Idle(dev.phase) && Held(dev.phase) == old(Held(dev.phase)) && dev.r.hashCnt == 0
    ensures state[..32] == Digest(Held(dev.phase)) && state[32..] == old(state[32..])
  {
    hide Compress, Unit.Valid, BytesOf, AllBytesOf, StateWords, Held, Idle;
    ghost var held := Held(dev.phase);
    ghost var ws := StateWords(held);
    EightWords(held);
    NoWords();
    assert ws[..0] == [];
    for k := 0 to 8
      invariant dev.Valid() && Idle(dev.phase) && Held(dev.phase) == held && dev.r.hashCnt == k % 8
      invariant state[..4 * k] == AllBytesOf(ws[..k])
      invariant forall j :: 4 * k <= j < state.Length ==> state[j] == old(state[j])
    {
      ReadWord(dev, state, 4 * k);
      AllBytesOfNext(ws, k);
    }
    assert ws[..8] == ws;
  }

  lemma EightWords(s: State)
    ensures |StateWords(s)| == 8
  {
  }

  lemma NoWords()
    ensures AllBytesOf([]) == []
  {
  }

  /** The blocks the driver hashes: the whole ones of the message below 2^31 bytes, and its tail. */
  function Hashed(input: seq<Byte>, count: U32): (bs: seq<Byte>)
    requires count <= |input|
    ensures |bs| % 64 == 0
  {
    input[..Folded(count)] + Tail(input[Whole(count)..count], count)
  }

  lemma BlocksHashed(input: seq<Byte>, count: U32)
    requires count <= |input|
    ensures HashBlocks(HashBlocks(INITIAL, input[..Folded(count)]), Tail(input[Whole(count)..count], count))
      == HashBlocks(INITIAL, Hashed(input, count))
  {
    hide Tail, HashBlocks;
    HashBlocksAppend(INITIAL, input[..Folded(count)], Tail(input[Whole(count)..count], count));
  }

  /** Below 2^29 bytes those are the blocks of the standard. */
  lemma HashedIsPadded(input: seq<Byte>, count: U32)
    requires count <= |input| && count < 0x2000_0000
    ensures Hashed(input, count) == Pad(input[..count])
  {
    hide Tail, Pad;
    var n, m := Whole(count), input[..count];
    TailIsPadding(m);
    assert m[..n] == input[..n] && m[n..] == input[n..count];
  }

  /** Below 2^31 bytes the message is hashed, all of it; from there on only what follows its whole blocks. */
  lemma HashedMessage(input: seq<Byte>, count: U32)
    requires count <= |input|
    ensures count < 0x8000_0000 ==> |Hashed(input, count)| > count && Hashed(input, count)[..count] == input[..count]
    ensures count >= 0x8000_0000 ==> Hashed(input, count) == Tail(input[count / 64 * 64..count], count)
  {
    hide LengthField, Zeros;
    var n := Whole(count);
    if count < 0x8000_0000 {
      assert Hashed(input, count)[..count] == input[..n] + input[n..count];
    }
  }

  /** `state` receives the digest of those blocks: SHA-256 of the first `count` bytes below 2^29. */
  method HashMessage(dev: Unit, input: seq<Byte>, count: U32, state: array<Byte>)
    requires dev.Valid() && Idle(dev.phase) && count <= |input| && state.Length >= 32
    modifies dev.Repr(), state
    ensures dev.Valid() && Idle(dev.phase)
    ensures state[..32] == Digest(HashBlocks(INITIAL, Hashed(input, count)))
    ensures count < 0x2000_0000 ==> state[..32] == Hash(input[..count])
    ensures state[32..] == old(state[32..])
  {
    hide Unit.Valid, Tail, Pad, Digest, HashBlocks, Hashed;
    Init(dev);
    Update(dev, input, count);
    Padding(dev, input[Whole(count)..count], count);
    BlocksHashed(input, count);
    if count < 0x2000_0000 { HashedIsPadded(input, count); }
    Final(dev, state);
  }

  /** The hash of a 32-byte digest is one compression of the sequencer's sixteen words. */
  lemma SecondHash(d: State)
    ensures HashBlocks(INITIAL, Pad(Digest(d))) == Compress(INITIAL, SecondBlock(d))
  {
    hide Compress, WordsOf, HashBlocks, SecondBlock, Digest;
    SecondBlockIsPadding(d);
    OneBlock(INITIAL, Pad(Digest(d)));
  }

  /** `state` receives SHA-256 of that digest: of SHA-256 of the first `count` bytes below 2^29. */
  method DoubleHashMessage(dev: Unit, input: seq<Byte>, count: U32, state: array<Byte>)
    requires dev.Valid() && Idle(dev.phase) && count <= |input| && state.Length >= 32
    modifies dev.Repr(), state
    ensures dev.Valid() && Idle(dev.phase)
    ensures state[..32] == Hash(Digest(HashBlocks(INITIAL, Hashed(input, count))))
    ensures count < 0x2000_0000 ==> state[..32] == DoubleHash(input[..count])
    ensures state[32..] == old(state[32..])
  {
    hide Unit.Valid, Tail, Pad, Digest, HashBlocks, SecondBlock, Compress, Hashed;
    Init(dev);
    Update(dev, input, count);
    Padding(dev, input[Whole(count)..count], count);
    BlocksHashed(input, count);
    if count < 0x2000_0000 { HashedIsPadded(input, count); }
    SecondHash(Held(dev.phase));
    dev.WriteDbl();
    AwaitDone(dev);
    Final(dev, state);
  }

  /** The hash value that eight `hi` writes leave when the words of `h` are written last word first. */
  function LoadedState(h: seq<Byte>): State
    requires |h| == 32
  {
    State(WordOf(h[28..32]), WordOf(h[24..28]), WordOf(h[20..24]), WordOf(h[16..20]),
          WordOf(h[12..16]), WordOf(h[8..12]), WordOf(h[4..8]), WordOf(h[0..4]))
  }

  /** Word i of the loaded value is word 7 - i in memory. */
  lemma LoadedReversed(h: seq<Byte>, i: nat)
    requires |h| == 32 && i < 8
    ensures |WordsOf(h)| == 8 && StateWords(LoadedState(h))[i] == WordsOf(h)[7 - i]
  {
    hide WordOf, WordsOf;
    WordsOfAt(h, 7 - i);
    assert StateWords(LoadedState(h))[i] == WordOf(h[4 * (7 - i)..4 * (7 - i) + 4]);
  }

  method LoadState(dev: Unit, h: seq<Byte>)
    requires dev.Valid() && Idle(dev.phase) && |h| == 32
    modifies dev.Repr()
    ensures dev.Valid() && Idle(dev.phase) && dev.r.hx == LoadedState(h)
  {
    hide Unit.Valid, WordOf;
    var i := 28;
    ghost var n := 0;
    while i >= 0
      invariant dev.Valid() && Idle(dev.phase) && i == 28 - 4 * n && 0 <= n <= 8
      invariant var x, t := dev.r.hx, LoadedState(h);
        && (n == 1 ==> x.h == t.a)
        && (n == 2 ==> x.g == t.a && x.h == t.b)
        && (n == 3 ==> x.f == t.a && x.g == t.b && x.h == t.c)
        && (n == 4 ==> x.e == t.a && x.f == t.b && x.g == t.c && x.h == t.d)
        && (n == 5 ==> x.d == t.a && x.e == t.b && x.f == t.c && x.g == t.d && x.h == t.e)
        && (n == 6 ==> x.c == t.a && x.d == t.b && x.e == t.c && x.f == t.d && x.g == t.e && x.h == t.f)
        && (n == 7 ==> x.b == t.a && x.c == t.b && x.d == t.c && x.e == t.d && x.f == t.e && x.g == t.f && x.h == t.g)
        && (n == 8 ==> x == t)
    {
      dev.WriteHi(WordOf(h[i..i + 4]));
      i, n := i - 4, n + 1;
    }
  }

  /** Reads the next precalculated value into the buffer. */
  method ReadPreWord(dev: Unit, state: array<Byte>, i: nat)
    requires dev.Valid() && dev.phase.Busy? && Idle(dev.phase) && i + 4 <= state.Length && dev.r.preCnt < 6
    modifies dev.Repr(), state
    ensures dev.Valid() && dev.phase == old(dev.phase) && dev.r.preCnt == old(dev.r.preCnt) + 1
    ensures state[..i + 4] == old(state[..i]) + BytesOf(PreWords(dev.phase)[old(dev.r.preCnt)])
    ensures forall j :: i + 4 <= j < state.Length ==> state[j] == old(state[j])
  {
    hide Unit.Valid, BytesOf, SC.Precalc;
    var tmp := dev.ReadPre();
    ghost var rest := state[i + 4..];
    StoreWord(state, i, tmp);
    assert forall j :: i + 4 <= j < state.Length ==> state[j] == state[i + 4..][j - i - 4] == rest[j - i - 4];
  }

  /** The six values, once the block is finished. */
  function PreWords(p: Phase): (ws: seq<Word>)
    requires p.Busy? && Idle(p)
    ensures |ws| == 6
  {
    SC.Precalc(p.chain, p.words)
  }

  /** Reads the six precalculated values into the first 24 bytes of `state`. */
  method PrecalcFinal(dev: Unit, state: array<Byte>)
    requires dev.Valid() && dev.phase.Busy? && Idle(dev.phase) && dev.r.preCnt == 0 && state.Length >= 24
    modifies dev.Repr(), state
    ensures dev.Valid() && dev.phase == old(dev.phase)
    ensures state[..24] == AllBytesOf(PreWords(dev.phase)) && state[24..] == old(state[24..])
  {
    hide Unit.Valid, BytesOf, AllBytesOf, PreWords, Idle;
    ghost var ws := PreWords(dev.phase);
    NoWords();
    assert ws[..0] == [];
    for k := 0 to 6
      invariant dev.Valid() && dev.phase == old(dev.phase) && dev.r.preCnt == k
      invariant state[..4 * k] == AllBytesOf(ws[..k])
      invariant forall j :: 4 * k <= j < state.Length ==> state[j] == old(state[j])
    {
      ReadPreWord(dev, state, 4 * k);
      AllBytesOfNext(ws, k);
    }
    assert ws[..6] == ws;
  }

  /** The three words of a 12-byte string, last word first. */
  function Reordered(input: seq<Byte>): (d: seq<Byte>)
    requires |input| == 12
    ensures |d| == 12
  {
    input[8..12] + input[4..8] + input[0..4]
  }

  /** The words of the last block are offered in reverse order. */
  lemma ReorderedWords(input: seq<Byte>)
    requires |input| == 12
    ensures WordsOf(Reordered(input)) == [WordOf(input[8..12]), WordOf(input[4..8]), WordOf(input[0..4])]
  {
    hide WordOf;
    WordsOfAppend(input[8..12] + input[4..8], input[0..4]);
    WordsOfAppend(input[8..12], input[4..8]);
    OneWord(input[8..12]);
    OneWord(input[4..8]);
    OneWord(input[0..4]);
  }

  lemma OneWord(b: seq<Byte>)
    requires |b| == 4
    ensures WordsOf(b) == [WordOf(b)]
  {
    hide WordOf;
    assert b[..4] == b && b[4..] == [];
  }

  /** First the three values of a, then those of e, after rounds 1, 2 and 3. */
  lemma PrecalcOrder(p: Phase, i: nat)
    requires p.Busy? && Idle(p) && i < 3
    ensures PreWords(p)[i] == Rounds(p.chain, p.words, i + 1).a && PreWords(p)[3 + i] == Rounds(p.chain, p.words, i + 1).e
  {
    hide Rounds;
  }

  function PrecalcBytes(h: seq<Byte>, m: seq<Byte>, count: U32): seq<Byte>
    requires |h| == 32 && |m| == count <= 12
  {
    AllBytesOf(SC.Precalc(LoadedState(h), TailWords(m, count)))
  }

  /** `state` receives a and e after rounds 1 to 3 of the block that ends the message whose first
      blocks hash to the words of `h`, last word first. */
  method PrecalcMessage(dev: Unit, h: seq<Byte>, input: seq<Byte>, count: U32, state: array<Byte>)
    requires dev.Valid() && Idle(dev.phase) && |h| == 32 && |input| == 12 && count <= 12 && state.Length >= 24
    modifies dev.Repr(), state
    ensures dev.Valid() && Idle(dev.phase)
    ensures state[..24] == PrecalcBytes(h, Reordered(input)[..count], count)
    ensures state[24..] == old(state[24..])
  {
    hide Unit.Valid, Tail, TailWords, LoadedState, SC.Precalc, AllBytesOf, Reordered, Compress, HashBlocks;
    dev.WriteRst();
    LoadState(dev, h);
    dev.WriteInit();
    var digest := Reordered(input);
    Update(dev, digest, count);
    Padding(dev, digest[Whole(count)..count], count);
    assert digest[0..count] == digest[..count];
    PrecalcFinal(dev, state);
  }
}
