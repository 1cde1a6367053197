/** What a mining job means: the header it stands for, the task handed to a chip, the nonce check. */
module WorkSpec {
  import opened Words
  import opened Bytes
  import opened Sha256

  const COINBASE_SIZE: nat := 2048
  const MERKLES_COUNT: nat := 20
  const HEADER_SIZE: nat := 128

  type Bytes32 = b: seq<Byte> | |b| == 32 witness seq(32, _ => 0)

  /** The contents of one `struct mm_work`. */
  datatype Job = Job(
    jobId: seq<Byte>, coinbaseLen: U32, coinbase: seq<Byte>, nonce2: U32, nonce2Offset: int, nonce2Size: int,
    merkleOffset: int, nmerkles: int, merkles: seq<Bytes32>, header: seq<Byte>, diff: U32, poolNo: U32, target: Bytes32)

  /** A slot of the zero-initialised static array. */
  const EMPTY_JOB: Job := Job(
    [0, 0, 0, 0], 0, seq(COINBASE_SIZE, _ => 0), 0, 0, 0, 0, 0,
    seq(MERKLES_COUNT, _ => seq(32, _ => 0)), seq(HEADER_SIZE, _ => 0), 0, 0, seq(32, _ => 0))

  /** The buffers have their declared sizes. */
  predicate Sized(j: Job) {
    && |j.jobId| == 4 && |j.coinbase| == COINBASE_SIZE && |j.header| == HEADER_SIZE && |j.merkles| == MERKLES_COUNT
  }

  /** The windows the firmware reads and patches lie inside the buffers. */
  predicate InRange(j: Job) {
    && j.coinbaseLen <= COINBASE_SIZE
    && 0 <= j.nonce2Offset && j.nonce2Offset + 4 <= COINBASE_SIZE
    && 0 <= j.merkleOffset && j.merkleOffset + 32 <= HEADER_SIZE
    && j.nmerkles <= MERKLES_COUNT
  }

  /** Left fold of the double hash over the branch. */
  function Fold(root: Bytes32, branch: seq<Bytes32>): Bytes32
    decreases |branch|
  {
    if branch == [] then root else Fold(DoubleHash(root + branch[0]), branch[1..])
  }

  lemma {:induction false} FoldNext(root: Bytes32, branch: seq<Bytes32>, next: Bytes32)
    ensures Fold(root, branch + [next]) == DoubleHash(Fold(root, branch) + next)
    decreases |branch|
  {
    hide DoubleHash;
    if branch == [] {
      assert [next][1..] == [];
    } else {
      assert (branch + [next])[1..] == branch[1..] + [next];
      FoldNext(DoubleHash(root + branch[0]), branch[1..], next);
    }
  }

  function CoinbaseWith(j: Job, nonce2: U32): (c: seq<Byte>)
    requires Sized(j) && InRange(j)
    ensures |c| == COINBASE_SIZE
  {
    Splice(j.coinbase, j.nonce2Offset, Store32(Swap32(nonce2)))
  }

  function Branch(j: Job): seq<Bytes32>
    requires Sized(j) && InRange(j)
  {
    j.merkles[..if j.nmerkles < 0 then 0 else j.nmerkles]
  }

  function MerkleRoot(j: Job, nonce2: U32): Bytes32
    requires Sized(j) && InRange(j)
  {
    Fold(DoubleHash(CoinbaseWith(j, nonce2)[..j.coinbaseLen]), Branch(j))
  }

  function HeaderWith(j: Job, nonce2: U32): (h: seq<Byte>)
    requires Sized(j) && InRange(j)
    ensures |h| == HEADER_SIZE
  {
    Splice(j.header, j.merkleOffset, Flip(MerkleRoot(j, nonce2)))
  }

  /** The job after work was generated from it in place. */
  function Patched(j: Job, nonce2: U32): (p: Job)
    requires Sized(j) && InRange(j)
    ensures Sized(p) && InRange(p)
  {
    j.(coinbase := CoinbaseWith(j, nonce2), header := HeaderWith(j, nonce2))
  }

  /** Earlier work leaves no trace: regenerating over a patched job gives what the fresh job gives. */
  lemma PatchedAgain(j: Job, first: U32, second: U32)
    requires Sized(j) && InRange(j)
    ensures Patched(Patched(j, first), second) == Patched(j, second)
  {
    hide DoubleHash, Fold, Splice, Swap32, Store32, Flip;
    SpliceAgain(j.coinbase, j.nonce2Offset, Store32(Swap32(first)), Store32(Swap32(second)));
    assert CoinbaseWith(Patched(j, first), second) == CoinbaseWith(j, second);
    assert MerkleRoot(Patched(j, first), second) == MerkleRoot(j, second);
    SpliceAgain(j.header, j.merkleOffset, Flip(MerkleRoot(j, first)), Flip(MerkleRoot(j, second)));
  }

  // What the generated work is, byte by byte

  /** The nonce2 is in the coinbase, least significant byte first. */
  lemma CoinbasePatched(j: Job, n: U32)
    requires Sized(j) && InRange(j)
    ensures Patched(j, n).coinbase ==
      j.coinbase[..j.nonce2Offset] + [n % 256, n / 0x100 % 256, n / 0x1_0000 % 256, n / 0x100_0000] + j.coinbase[j.nonce2Offset + 4..]
  {
    hide Store32, Swap32, HeaderWith;
    SwappedBytes(n);
  }

  /** Without a branch the merkle root is the double hash of that coinbase. */
  lemma RootStarts(j: Job, n: U32)
    requires Sized(j) && InRange(j) && j.nmerkles <= 0
    ensures MerkleRoot(j, n) == DoubleHash(Patched(j, n).coinbase[..j.coinbaseLen])
  {
    hide DoubleHash, Splice;
  }

  /** Each further entry of the branch is hashed behind the root so far. */
  lemma RootSteps(j: Job, n: U32, k: nat)
    requires Sized(j) && InRange(j) && k < 20
    ensures Sized(j.(nmerkles := k)) && InRange(j.(nmerkles := k)) && Sized(j.(nmerkles := k + 1)) && InRange(j.(nmerkles := k + 1))
    ensures MerkleRoot(j.(nmerkles := k + 1), n) == DoubleHash(MerkleRoot(j.(nmerkles := k), n) + j.merkles[k])
  {
    hide DoubleHash, Fold, Splice;
    assert j.merkles[..k + 1] == j.merkles[..k] + [j.merkles[k]];
    FoldNext(DoubleHash(CoinbaseWith(j, n)[..j.coinbaseLen]), j.merkles[..k], j.merkles[k]);
  }

  /** The root is in the header, each of its words with the bytes in the other order; the rest of the
      header is the job's. */
  lemma HeaderPatched(j: Job, n: U32, k: nat, i: nat)
    requires Sized(j) && InRange(j) && k < 8 && i < 4
    ensures Patched(j, n).header[j.merkleOffset + 4 * k + i] == MerkleRoot(j, n)[4 * k + 3 - i]
    ensures Patched(j, n).header[..j.merkleOffset] == j.header[..j.merkleOffset]
    ensures Patched(j, n).header[j.merkleOffset + 32..] == j.header[j.merkleOffset + 32..]
  {
    hide MerkleRoot, Flip, CoinbaseWith;
    FlippedAt(MerkleRoot(j, n), k, i);
    var h, root := Patched(j, n).header, Flip(MerkleRoot(j, n));
    assert h[j.merkleOffset..j.merkleOffset + 32] == root;
    assert h[j.merkleOffset + (4 * k + i)] == root[4 * k + i];
  }

  /** Nothing else of the job changes. */
  lemma RestPatched(j: Job, n: U32)
    requires Sized(j) && InRange(j)
    ensures var p := Patched(j, n); p == j.(coinbase := p.coinbase, header := p.header)
  {
  }

  /** The job after any run of work generations. */
  function PatchedAll(j: Job, nonces: seq<U32>): (p: Job)
    requires Sized(j) && InRange(j)
    ensures Sized(p) && InRange(p)
    decreases |nonces|
  {
    if nonces == [] then j else PatchedAll(Patched(j, nonces[0]), nonces[1..])
  }

  /** Whatever work was generated before, the next work is that of the untouched job. */
  lemma {:induction false} HistoryIrrelevant(j: Job, before: seq<U32>, nonce2: U32)
    requires Sized(j) && InRange(j)
    ensures Patched(PatchedAll(j, before), nonce2) == Patched(j, nonce2)
    decreases |before|
  {
    hide Patched;
    if before != [] {
      HistoryIrrelevant(Patched(j, before[0]), before[1..], nonce2);
      PatchedAgain(j, before[0], nonce2);
    }
  }

  // The chip's task

  /** The hash value after the first 64 header bytes, each word flipped. */
  function Midstate(header: seq<Byte>): State
    requires |header| == HEADER_SIZE
  {
    Compress(INITIAL, WordsOf(Flip(header[..64])))
  }

  /** The 44 bytes handed to a chip: flipped midstate, then header bytes 64 to 75 as they are. */
  function Task(header: seq<Byte>): (t: seq<Byte>)
    requires |header| == HEADER_SIZE
    ensures |t| == 44
  {
    Flip(Digest(Midstate(header))) + header[64..76]
  }

  /** What is left of an 80-byte header's padding after its nonce. */
  function HeaderPadding(): (p: seq<Byte>)
    ensures |p| == 48
  {
    [0x80] + Zeros(39) + LengthBytes(640)
  }

  /** The double hash a chip finishes from its task and a nonce. */
  function ChipHash(task: seq<Byte>, nonce: U32): (d: seq<Byte>)
    requires |task| == 44
    ensures |d| == 32
  {
    var mid := StateOf(WordsOf(Flip(task[..32])));
    var last := Flip(task[32..]) + Store32(nonce) + HeaderPadding();
    Hash(Digest(Compress(mid, WordsOf(last))))
  }

  /** The header with its nonce written at byte 76, byte-swapped. */
  function WithNonce(header: seq<Byte>, nonce: U32): (h: seq<Byte>)
    requires |header| == HEADER_SIZE
    ensures |h| == HEADER_SIZE
  {
    Splice(header, 76, Store32(Swap32(nonce)))
  }

  /** The 80 bytes that are hashed: the header up to its nonce, each word flipped. */
  function HashedHeader(header: seq<Byte>, nonce: U32): (b: seq<Byte>)
    requires |header| == HEADER_SIZE
    ensures |b| == 80
  {
    Flip(WithNonce(header, nonce)[..80])
  }

  /** The hash `test_nonce` recomputes from the whole header. */
  function HeaderHash(header: seq<Byte>, nonce: U32): Bytes32
    requires |header| == HEADER_SIZE
  {
    DoubleHash(HashedHeader(header, nonce))
  }

  /** Bytes 64 to 79 as they are hashed. */
  function LastWords(header: seq<Byte>, nonce: U32): (b: seq<Byte>)
    requires |header| == HEADER_SIZE
    ensures |b| == 16
  {
    Flip(header[64..76]) + Store32(nonce)
  }

  lemma FlippedHeader(header: seq<Byte>, nonce: U32)
    requires |header| == HEADER_SIZE
    ensures HashedHeader(header, nonce) == Flip(header[..64]) + LastWords(header, nonce)
  {
    hide Flip, Swap32, Store32;
    var n := Store32(Swap32(nonce));
    var h := WithNonce(header, nonce);
    var mid := header[64..76];
    assert h[..80] == header[..64] + (mid + n);
    FlipAppend(header[..64], mid + n);
    FlipAppend(mid, n);
    NonceFlip(nonce);
  }

  /** The hashed bytes: each word of the header with its bytes in the other order, then the nonce, most
      significant byte first. */
  lemma HashedBytes(header: seq<Byte>, nonce: U32, k: nat, i: nat)
    requires |header| == HEADER_SIZE && k < 19 && i < 4
    ensures HashedHeader(header, nonce)[4 * k + i] == header[4 * k + 3 - i]
    ensures HashedHeader(header, nonce)[76..] == [nonce / 0x100_0000, nonce / 0x1_0000 % 256, nonce / 0x100 % 256, nonce % 256]
  {
    hide Flip, HashedHeader;
    FlippedHeader(header, nonce);
    var last := LastWords(header, nonce);
    assert HashedHeader(header, nonce)[76..] == last[12..];
    if k < 16 {
      FlippedAt(header[..64], k, i);
    } else {
      FlippedAt(header[64..76], k - 16, i);
      assert HashedHeader(header, nonce)[64 + (4 * (k - 16) + i)] == last[4 * (k - 16) + i];
    }
  }

  /** The task's bytes: the midstate's words with theirs in the other order, then the header's as they are. */
  lemma TaskBytes(header: seq<Byte>, k: nat, i: nat)
    requires |header| == HEADER_SIZE && k < 8 && i < 4
    ensures Task(header)[4 * k + i] == Digest(Midstate(header))[4 * k + 3 - i]
    ensures Task(header)[32..] == header[64..76]
  {
    hide Flip, Digest;
    FlippedAt(Digest(Midstate(header)), k, i);
  }

  lemma NonceFlip(nonce: U32)
    ensures Flip(Store32(Swap32(nonce))) == Store32(nonce)
  {
    hide Swap32, Store32, Load32;
    var n := Store32(Swap32(nonce));
    FlipWord(n);
    SwapReverses(n);
    LoadStore(Swap32(nonce));
    SwapTwice(nonce);
  }

  /** The chip's 44-byte task and the firmware's 80-byte check give the same hash. */
  lemma ChipAgreesWithCheck(header: seq<Byte>, nonce: U32)
    requires |header| == HEADER_SIZE
    ensures ChipHash(Task(header), nonce) == HeaderHash(header, nonce)
  {
    hide Flip, Store32, WordsOf, Compress, Digest, HashBlocks, HashedHeader;
    var first := Flip(header[..64]);
    var last := LastWords(header, nonce) + HeaderPadding();
    FlippedHeader(header, nonce);
    TwoBlocks(first, LastWords(header, nonce));
    MidstateFromTask(header);
    assert Task(header)[32..] == header[64..76];
  }

  /** An 80-byte message is hashed in two compressions. */
  lemma TwoBlocks(first: seq<Byte>, rest: seq<Byte>)
    requires |first| == 64 && |rest| == 16
    ensures HashBlocks(INITIAL, Pad(first + rest)) == Compress(Compress(INITIAL, WordsOf(first)), WordsOf(rest + HeaderPadding()))
  {
    hide Compress, WordsOf, HashBlocks;
    var last := rest + HeaderPadding();
    assert Pad(first + rest) == first + last;
    HashBlocksAppend(INITIAL, first, last);
    OneBlock(INITIAL, first);
    OneBlock(Compress(INITIAL, WordsOf(first)), last);
  }

  lemma MidstateFromTask(header: seq<Byte>)
    requires |header| == HEADER_SIZE
    ensures StateOf(WordsOf(Flip(Task(header)[..32]))) == Midstate(header)
  {
    hide Flip, WordsOf, Compress, AllBytesOf;
    var s := Midstate(header);
    assert Task(header)[..32] == Flip(Digest(s));
    FlipTwice(Digest(s));
    WordsOfAllBytesOf(StateWords(s));
  }

  // The nonce check

  datatype Verdict = Hw | Valid | Diff

  /** `test_nonce`: the top word must be zero, then the hash is compared with the job's target. */
  function Check(j: Job, nonce2: U32, nonce: U32): Verdict
    requires Sized(j) && InRange(j)
  {
    var h := HeaderHash(HeaderWith(j, nonce2), nonce);
    if Load32(h[28..]) != 0 then Hw
    else if LittleEndian(h) < LittleEndian(j.target) then Diff
    else Valid
  }

  /** A nonce is no hash at all, by its last four bytes, or below the target, or neither. */
  lemma CheckExact(j: Job, nonce2: U32, nonce: U32)
    requires Sized(j) && InRange(j)
    ensures var h := HeaderHash(HeaderWith(j, nonce2), nonce);
      && (Check(j, nonce2, nonce) == Hw <==> !(h[28] == 0 && h[29] == 0 && h[30] == 0 && h[31] == 0))
      && (Check(j, nonce2, nonce) == Diff <==> h[28..] == [0, 0, 0, 0] && LittleEndian(h) < LittleEndian(j.target))
      && (Check(j, nonce2, nonce) == Valid <==> h[28..] == [0, 0, 0, 0] && LittleEndian(h) >= LittleEndian(j.target))
  {
    hide HeaderHash, HeaderWith, LittleEndian;
    var h := HeaderHash(HeaderWith(j, nonce2), nonce);
    ZeroWord(h[28..]);
  }

  lemma ZeroWord(b: seq<Byte>)
    requires |b| == 4
    ensures Load32(b) == 0 <==> b == [0, 0, 0, 0]
  {
    ExtremeWords();
    if Load32(b) == 0 {
      StoreLoad(b);
      StoreLoad([0, 0, 0, 0]);
    }
  }

  /** Generating other work first does not change a verdict. */
  lemma CheckIgnoresHistory(j: Job, before: seq<U32>, nonce2: U32, nonce: U32)
    requires Sized(j) && InRange(j)
    ensures Check(PatchedAll(j, before), nonce2, nonce) == Check(j, nonce2, nonce)
  {
    hide Patched, HeaderHash;
    HistoryIrrelevant(j, before, nonce2);
    HeaderOfPatched(j, nonce2);
    HeaderOfPatched(PatchedAll(j, before), nonce2);
    TargetKept(j, before);
  }

  lemma HeaderOfPatched(j: Job, nonce2: U32)
    requires Sized(j) && InRange(j)
    ensures Patched(j, nonce2).header == HeaderWith(j, nonce2)
  {
  }

  lemma {:induction false} TargetKept(j: Job, before: seq<U32>)
    requires Sized(j) && InRange(j)
    ensures PatchedAll(j, before).target == j.target
    decreases |before|
  {
    if before != [] {
      TargetKept(Patched(j, before[0]), before[1..]);
    }
  }
}
