/** Work generation and the nonce check, in place over the job's buffers. */
module Miner {
  import opened Words
  import opened Bytes
  import opened Sha256
  import opened WorkSpec
  import opened ShaUnit
  import opened Sha256Driver

  /** `struct mm_work`: the coinbase and header buffers are patched in place. */
  class MmWork {
    const coinbase: array<Byte>
    const header: array<Byte>
    var jobId: seq<Byte>
    var coinbaseLen: U32
    var nonce2: U32
    var nonce2Offset: int
    var nonce2Size: int
    var merkleOffset: int
    var nmerkles: int
    var merkles: seq<Bytes32>
    var diff: U32
    var poolNo: U32
    var target: Bytes32

    ghost function Repr(): set<object> { {this, coinbase, header} }

    ghost function Contents(): Job
      reads Repr()
    {
      Job(jobId, coinbaseLen, coinbase[..], nonce2, nonce2Offset, nonce2Size,
          merkleOffset, nmerkles, merkles, header[..], diff, poolNo, target)
    }

    ghost predicate Valid()
      reads Repr()
    {
      Sized(Contents())
    }

    /** A slot of the zero-initialised array of jobs. */
    constructor ()
      ensures Valid() && Contents() == EMPTY_JOB && fresh(Repr())
    {
      coinbase := new Byte[COINBASE_SIZE](_ => 0);
      header := new Byte[HEADER_SIZE](_ => 0);
      jobId, coinbaseLen, nonce2, nonce2Offset, nonce2Size := [0, 0, 0, 0], 0, 0, 0, 0;
      merkleOffset, nmerkles, diff, poolNo := 0, 0, 0, 0;
      target := seq(32, _ => 0);
      merkles := seq(MERKLES_COUNT, _ => seq(32, _ => 0));
      new;
      assert coinbase[..] == EMPTY_JOB.coinbase && header[..] == EMPTY_JOB.header;
    }
  }

  /** `struct work`. */
  class Work {
    var nonce2: U32
    var mmIdx: U32
    const data: array<Byte>
    const header: array<Byte>

    ghost function Repr(): set<object> { {this, data, header} }

    ghost predicate Valid() { data.Length == 44 && header.Length == HEADER_SIZE }

    constructor ()
      ensures Valid() && fresh(Repr())
    {
      nonce2, mmIdx := 0, 0;
      data := new Byte[44](_ => 0);
      header := new Byte[HEADER_SIZE](_ => 0);
    }
  }

  /** `memcpy(dest + at, src, |src|)`. */
  method CopyTo(dest: array<Byte>, at: nat, src: seq<Byte>)
    requires at + |src| <= dest.Length
    modifies dest
    ensures dest[..] == Splice(old(dest[..]), at, src)
  {
    ghost var was := dest[..];
    forall i | 0 <= i < |src| {
      dest[at + i] := src[i];
    }
    assert dest[..] == was[..at] + src + was[at + |src|..];
  }

  /** `flip32` and `flip80`: `bswap_32` of `n` memory words. */
  method FlipWords(dest: array<Byte>, src: seq<Byte>, n: nat)
    requires |src| == 4 * n <= dest.Length
    modifies dest
    ensures dest[..] == Splice(old(dest[..]), 0, Flip(src))
  {
    hide Flip, Splice, Front, FlippedTo;
    ghost var was := dest[..];
    NoneFlipped(src, was);
    for i := 0 to n
      invariant FlippedTo(dest[..], src, was, i)
    {
      FlipOne(dest, src, i, was);
    }
    FourDivides(n);
    AllFlipped(dest[..], src, was, n);
  }

  /** The first i words are done. */
  predicate FlippedTo(bs: seq<Byte>, src: seq<Byte>, was: seq<Byte>, i: nat) {
    4 * i <= |src| <= |was| && bs == Front(src, i) + was[4 * i..]
  }

  /** The i-th word. */
  method FlipOne(dest: array<Byte>, src: seq<Byte>, i: nat, ghost was: seq<Byte>)
    requires 4 * (i + 1) <= |src| && |was| == dest.Length && FlippedTo(dest[..], src, was, i)
    modifies dest
    ensures FlippedTo(dest[..], src, was, i + 1)
  {
    hide Swap32, Load32, Store32, Splice, Front;
    var four := src[4 * i..4 * i + 4];
    FlipNext(src, i);
    SwapReverses(four);
    SpliceNext(Front(src, i), was, 4 * i, Store32(Swap32(Load32(four))));
    CopyTo(dest, 4 * i, Store32(Swap32(Load32(four))));
  }

  /** The first i words, flipped. */
  function Front(src: seq<Byte>, i: nat): (f: seq<Byte>)
    requires 4 * i <= |src|
    ensures |f| == 4 * i
  {
    Flip(src[..4 * i])
  }

  lemma NoneFlipped(src: seq<Byte>, was: seq<Byte>)
    requires |src| <= |was|
    ensures FlippedTo(was, src, was, 0)
  {
  }

  lemma AllFlipped(bs: seq<Byte>, src: seq<Byte>, was: seq<Byte>, n: nat)
    requires |src| == 4 * n && |src| % 4 == 0 && FlippedTo(bs, src, was, n)
    ensures |src| <= |was| && bs == Splice(was, 0, Flip(src))
  {
    hide Flip, Splice, Front;
    FrontAll(src, n);
    SpliceFront(was, Front(src, n));
  }

  lemma FourDivides(n: nat)
    ensures 4 * n % 4 == 0
  {
  }

  lemma FrontAll(src: seq<Byte>, n: nat)
    requires |src| == 4 * n && |src| % 4 == 0
    ensures Front(src, n) == Flip(src)
  {
    hide Flip;
    assert src[..4 * n] == src;
  }

  lemma SpliceFront(was: seq<Byte>, f: seq<Byte>)
    requires |f| <= |was|
    ensures f + was[|f|..] == Splice(was, 0, f)
  {
  }

  /** Writing the next word behind what is done. */
  lemma SpliceNext(done: seq<Byte>, was: seq<Byte>, at: nat, x: seq<Byte>)
    requires |done| == at && at + |x| <= |was|
    ensures Splice(done + was[at..], at, x) == done + x + was[at + |x|..]
  {
    var all := done + was[at..];
    assert all[..at] == done && all[at + |x|..] == was[at + |x|..];
  }

  lemma FlipNext(src: seq<Byte>, i: nat)
    requires 4 * i + 4 <= |src|
    ensures Front(src, i + 1) == Front(src, i) + [src[4 * i + 3], src[4 * i + 2], src[4 * i + 1], src[4 * i]]
  {
    hide Flip;
    var four := src[4 * i..4 * i + 4];
    assert src[..4 * (i + 1)] == src[..4 * i] + four;
    FlipAppend(src[..4 * i], four);
    FlipWord(four);
  }

  /** `flip64`: sixteen words assembled from bytes, least significant first. */
  method FlipBlock(dest: array<Byte>, src: seq<Byte>)
    requires |src| == 64 == dest.Length
    modifies dest
    ensures dest[..] == Flip(src)
  {
    hide Flip, Splice, Front, FlippedTo;
    ghost var was := dest[..];
    NoneFlipped(src, was);
    for i := 0 to 16
      invariant FlippedTo(dest[..], src, was, i)
    {
      JoinOne(dest, src, i, was);
    }
    AllFlipped(dest[..], src, was, 16);
    WholeSplice(was, Flip(src));
  }

  /** The i-th word. */
  method JoinOne(dest: array<Byte>, src: seq<Byte>, i: nat, ghost was: seq<Byte>)
    requires 4 * (i + 1) <= |src| && |was| == dest.Length && FlippedTo(dest[..], src, was, i)
    modifies dest
    ensures FlippedTo(dest[..], src, was, i + 1)
  {
    hide Store32, Flip, Splice, Load32, Front;
    var w: int := src[4 * i] as int + src[4 * i + 1] as int * 0x100 + src[4 * i + 2] as int * 0x1_0000 + src[4 * i + 3] as int * 0x100_0000;
    var bytes := [src[4 * i + 3], src[4 * i + 2], src[4 * i + 1], src[4 * i]];
    BytesLoad(bytes, w);
    StoreLoad(bytes);
    FlipNext(src, i);
    SpliceNext(Front(src, i), was, 4 * i, Store32(w));
    CopyTo(dest, 4 * i, Store32(w));
  }

  lemma BytesLoad(b: seq<Byte>, w: int)
    requires |b| == 4 && w == b[3] as int + b[2] as int * 0x100 + b[1] as int * 0x1_0000 + b[0] as int * 0x100_0000
    ensures w == Load32(b)
  {
  }

  /** The hash value after one block, as bytes. */
  function BlockDigest(block: seq<Byte>): Bytes32
    requires |block| == 64
  {
    Digest(Compress(INITIAL, WordsOf(block)))
  }

  /** `sha256_init`, `sha256_update` and `sha256_final` over one block, without padding. */
  method HashState(dev: Unit, block: seq<Byte>, state: array<Byte>)
    requires dev.Valid() && Idle(dev.phase) && |block| == 64 && state.Length >= 32
    modifies dev.Repr(), state
    ensures dev.Valid() && Idle(dev.phase)
    ensures state[..32] == BlockDigest(block) && state[32..] == old(state[32..])
  {
    hide Unit.Valid, WordsOf, Compress, Digest, HashBlocks;
    Init(dev);
    Update(dev, block, 64);
    OneBlock(INITIAL, block);
    assert block[..64] == block;
    Final(dev, state);
  }

  method CalcMidstate(mw: MmWork, work: Work, dev: Unit)
    requires mw.Valid() && work.Valid() && dev.Valid() && Idle(dev.phase)
    requires mw.Repr() !! work.Repr() && dev.Repr() !! mw.Repr() + work.Repr()
    modifies work.data, dev.Repr()
    ensures dev.Valid() && Idle(dev.phase)
    ensures work.data[..] == Task(mw.header[..])
  {
    hide Unit.Valid, Flip, WordsOf, Compress, Digest, HashBlocks;
    ghost var header := mw.header[..];
    var data := new Byte[64](_ => 0);
    FlipBlock(data, mw.header[..64]);
    assert header[..64] == mw.header[..64];
    HashState(dev, data[..], work.data);

    ghost var digest := work.data[..32];
    assert digest == Digest(Midstate(header));
    CopyTo(data, 0, work.data[..32]);
    assert data[..32] == digest;
    FlipWords(work.data, data[..32], 8);
    ghost var flipped := work.data[..];
    assert flipped[..32] == Flip(digest);
    CopyTo(work.data, 32, mw.header[64..76]);
    assert work.data[..] == flipped[..32] + header[64..76];
  }

  lemma WholeSplice(bs: seq<Byte>, x: seq<Byte>)
    requires |x| == |bs|
    ensures Splice(bs, 0, x) == x
  {
  }

  /** Double-hashes the coinbase and folds the merkle branch over it; the root is left in
      `merkleSha[..32]`. */
  method FoldBranch(mw: MmWork, dev: Unit, merkleRoot: array<Byte>, merkleSha: array<Byte>)
    requires mw.Valid() && InRange(mw.Contents()) && dev.Valid() && Idle(dev.phase)
    requires merkleRoot.Length == 32 && merkleSha.Length == 64 && merkleRoot != merkleSha
    requires {merkleRoot, merkleSha} !! mw.Repr() + dev.Repr() && mw.Repr() !! dev.Repr()
    modifies merkleRoot, merkleSha, dev.Repr()
    ensures dev.Valid() && Idle(dev.phase)
    ensures merkleSha[..32] == Fold(DoubleHash(mw.coinbase[..mw.coinbaseLen]), Branch(mw.Contents()))
  {
    hide Unit.Valid, Hash, DoubleHash, Fold, Splice, Hashed, HashBlocks, Digest;
    ghost var branch := Branch(mw.Contents());
    ghost var leaf := DoubleHash(mw.coinbase[..mw.coinbaseLen]);
    DoubleHashMessage(dev, mw.coinbase[..], mw.coinbaseLen, merkleRoot);
    assert mw.coinbase[..][..mw.coinbaseLen] == mw.coinbase[..mw.coinbaseLen];
    StoreRoot(merkleSha, merkleRoot, leaf);
    FoldNone(leaf);
    assert branch[..0] == [];
    var i := 0;
    while i < mw.nmerkles
      invariant 0 <= i <= |branch|
      invariant dev.Valid() && Idle(dev.phase)
      invariant mw.Contents() == old(mw.Contents())
      invariant merkleSha[..32] == Fold(leaf, branch[..i])
    {
      HashSibling(dev, mw.merkles[i], merkleRoot, merkleSha);
      FoldNext(leaf, branch[..i], branch[i]);
      assert branch[..i + 1] == branch[..i] + [branch[i]];
      i := i + 1;
    }
    assert branch[..i] == branch;
  }

  /** One step of the fold. */
  method HashSibling(dev: Unit, sibling: Bytes32, merkleRoot: array<Byte>, merkleSha: array<Byte>)
    requires dev.Valid() && Idle(dev.phase) && {merkleRoot, merkleSha} !! dev.Repr()
    requires merkleRoot.Length == 32 && merkleSha.Length == 64 && merkleRoot != merkleSha
    modifies merkleRoot, merkleSha, dev.Repr()
    ensures dev.Valid() && Idle(dev.phase)
    ensures merkleSha[..32] == DoubleHash(old(merkleSha[..32]) + sibling)
  {
    hide Unit.Valid, Hash, DoubleHash, Splice, Hashed, HashBlocks, Digest;
    ghost var root := merkleSha[..32];
    StoreSibling(merkleSha, sibling);
    DoubleHashMessage(dev, merkleSha[..], 64, merkleRoot);
    assert merkleSha[..][..64] == root + sibling;
    StoreRoot(merkleSha, merkleRoot, DoubleHash(root + sibling));
  }

  lemma FoldNone(root: Bytes32)
    ensures Fold(root, []) == root
  {
  }

  /** `memcpy(merkle_sha, merkle_root, 32)`. */
  method StoreRoot(merkleSha: array<Byte>, merkleRoot: array<Byte>, ghost root: Bytes32)
    requires merkleRoot.Length == 32 && merkleSha.Length == 64 && merkleRoot != merkleSha && merkleRoot[..32] == root
    modifies merkleSha
    ensures merkleSha[..32] == root
  {
    CopyTo(merkleSha, 0, merkleRoot[..32]);
    assert merkleSha[..][..32] == root;
  }

  /** `memcpy(merkle_sha + 32, mw->merkles[i], 32)`. */
  method StoreSibling(merkleSha: array<Byte>, sibling: Bytes32)
    requires merkleSha.Length == 64
    modifies merkleSha
    ensures merkleSha[..] == old(merkleSha[..32]) + sibling
  {
    CopyTo(merkleSha, 32, sibling);
  }

  /** Patches the nonce2 into the coinbase and the merkle root into the header, and fills the work. */
  method GenNonce2Work(mw: MmWork, nonce2: U32, work: Work, dev: Unit)
    requires mw.Valid() && InRange(mw.Contents()) && work.Valid() && dev.Valid() && Idle(dev.phase)
    requires mw.Repr() !! work.Repr() && dev.Repr() !! mw.Repr() + work.Repr()
    modifies mw.coinbase, mw.header, work`nonce2, work.data, work.header, dev.Repr()
    ensures dev.Valid() && Idle(dev.phase) && mw.Valid()
    ensures mw.Contents() == Patched(old(mw.Contents()), nonce2)
    ensures work.nonce2 == nonce2
    ensures work.header[..] == HeaderWith(old(mw.Contents()), nonce2)
    ensures work.data[..] == Task(HeaderWith(old(mw.Contents()), nonce2))
  {
    hide Unit.Valid, Flip, Task, Store32, Swap32, Hash, DoubleHash, Fold, Splice;
    ghost var job := mw.Contents();
    CopyTo(mw.coinbase, mw.nonce2Offset, Store32(Swap32(nonce2)));
    work.nonce2 := nonce2;
    var merkleRoot, merkleSha := new Byte[32](_ => 0), new Byte[64](_ => 0);
    FoldBranch(mw, dev, merkleRoot, merkleSha);
    assert mw.coinbase[..mw.coinbaseLen] == CoinbaseWith(job, nonce2)[..job.coinbaseLen];
    ghost var root := MerkleRoot(job, nonce2);

    WholeSplice(merkleRoot[..], Flip(root));
    FlipWords(merkleRoot, merkleSha[..32], 8);
    CopyTo(mw.header, mw.merkleOffset, merkleRoot[..]);
    WholeSplice(work.header[..], mw.header[..]);
    CopyTo(work.header, 0, mw.header[..]);
    CalcMidstate(mw, work, dev);
  }

  const NONCE_HW: int := 0
  const NONCE_VALID: int := 1
  const NONCE_DIFF: int := 2

  function Code(v: Verdict): int {
    match v case Hw => NONCE_HW case Valid => NONCE_VALID case Diff => NONCE_DIFF
  }

  /** Compares two 256-bit little-endian numbers, top word first. */
  method FullTest(hash: Bytes32, target: Bytes32) returns (rc: int)
    ensures rc == if LittleEndian(hash) < LittleEndian(target) then NONCE_DIFF else NONCE_VALID
  {
    hide Swap32, Load32, LittleEndian, Limbs;
    ghost var h, t := Limbs(hash), Limbs(target);
    LimbsValue(hash);
    LimbsValue(target);
    rc := 1;
    var i := 7;
    while i >= 0
      invariant -1 <= i <= 7 && rc == NONCE_VALID && h[i + 1..] == t[i + 1..]
    {
      var h32tmp := Swap32(Load32(hash[4 * i..4 * i + 4]));
      var t32tmp := Swap32(Load32(target[4 * i..4 * i + 4]));
      LimbsAt(hash, i);
      LimbsAt(target, i);
      if h32tmp > t32tmp {
        TopLimbDecides(t, h, i);
        rc := NONCE_VALID;
        break;
      }
      if h32tmp < t32tmp {
        TopLimbDecides(h, t, i);
        rc := NONCE_DIFF;
        break;
      }
      assert h[i..] == [h[i]] + h[i + 1..] && t[i..] == [t[i]] + t[i + 1..];
      i := i - 1;
    }
    if i < 0 { assert h[0..] == h && t[0..] == t; }
  }

  /** The double hash of the first 80 header bytes, each word flipped. */
  function FlippedHash(header: seq<Byte>): Bytes32
    requires |header| == HEADER_SIZE
  {
    DoubleHash(Flip(header[..80]))
  }

  /** Flips the first 80 header bytes and double-hashes them. */
  method RegenHash(dev: Unit, header: seq<Byte>) returns (hash: Bytes32)
    requires |header| == HEADER_SIZE && dev.Valid() && Idle(dev.phase)
    modifies dev.Repr()
    ensures dev.Valid() && Idle(dev.phase)
    ensures hash == FlippedHash(header)
  {
    hide Unit.Valid, Flip, Hash, DoubleHash, Splice, Hashed, HashBlocks, Digest;
    var swap, hash1 := new Byte[80](_ => 0), new Byte[32](_ => 0);
    WholeSplice(swap[..], Flip(header[..80]));
    FlipWords(swap, header[..80], 20);
    var message := swap[..];
    DoubleHashMessage(dev, message, 80, hash1);
    assert message[..80] == message;
    assert hash1[..32] == hash1[..];
    hash := hash1[..];
  }

  /** Regenerates the work, writes the nonce into its header, hashes the header and judges the hash. */
  method TestNonce(mw: MmWork, nonce2: U32, nonce: U32, dev: Unit) returns (rc: int)
    requires mw.Valid() && InRange(mw.Contents()) && dev.Valid() && Idle(dev.phase) && dev.Repr() !! mw.Repr()
    modifies mw.coinbase, mw.header, dev.Repr()
    ensures dev.Valid() && Idle(dev.phase) && mw.Valid()
    ensures mw.Contents() == Patched(old(mw.Contents()), nonce2)
    ensures rc == Code(Check(old(mw.Contents()), nonce2, nonce))
  {
    hide Unit.Valid, Flip, Task, Store32, Swap32, DoubleHash, Splice, HeaderWith, Patched, InRange;
    ghost var job := mw.Contents();
    var work := new Work();
    GenNonce2Work(mw, nonce2, work, dev);
    CopyTo(work.header, 76, Store32(Swap32(nonce)));
    var hash := RegenHash(dev, work.header[..]);
    if Load32(hash[28..]) != 0 {
      return NONCE_HW;
    }
    rc := FullTest(hash, mw.target);
  }
}
