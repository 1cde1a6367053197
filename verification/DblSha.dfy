/** The sequencer that feeds a captured digest back to the core as the one padded block of a second hash. */
module DblSha {
  import opened Words
  import opened Sha256

  const TAIL: seq<Word> := [0x8000_0000, 0, 0, 0, 0, 0, 0, 0x100]

  /** The sixteen words of the padded 32-byte message `d`. */
  function SecondBlock(d: State): (ws: seq<Word>)
    ensures |ws| == 16
  {
    StateWords(d) + TAIL
  }

  /** A 32-byte message and its padding are exactly those words. */
  lemma SecondBlockIsPadding(d: State)
    ensures WordsOf(Pad(Digest(d))) == SecondBlock(d)
  {
    hide WordOf, LengthBytes, AllBytesOf;
    var tail: seq<Byte> := [0x80] + Zeros(23) + LengthBytes(256);
    assert Pad(Digest(d)) == Digest(d) + tail;
    WordsOfAppend(Digest(d), tail);
    WordsOfAllBytesOf(StateWords(d));
    TailWords();
  }

  lemma TailWords()
    ensures WordsOf([0x80] + Zeros(23) + LengthBytes(256)) == TAIL
  {
    hide Join, BitsOf, WordsOf;
    var tail: seq<Byte> := [0x80] + Zeros(23) + LengthBytes(256);
    assert LengthBytes(256) == [0, 0, 0, 0, 0, 0, 1, 0];
    TailWordValues();
    assert tail[30] == 1 && forall j :: 0 < j < 32 && j != 30 ==> tail[j] == 0;
    forall i: nat | i < 8 ensures WordsOf(tail)[i] == TAIL[i] {
      WordsOfAt(tail, i);
      Four(tail, 4 * i);
    }
  }

  lemma Four(s: seq<Byte>, at: nat)
    requires at + 4 <= |s|
    ensures s[at..at + 4] == [s[at], s[at + 1], s[at + 2], s[at + 3]]
  {
  }

  lemma TailWordValues()
    ensures WordOf([0x80, 0, 0, 0]) == 0x8000_0000 && WordOf([0, 0, 1, 0]) == 0x100 && WordOf([0, 0, 0, 0]) == 0
  {
  }

  /** The 256-bit register k clocks into the feed. */
  predicate Feeds(d: State, k: nat, hashR: seq<Word>)
    requires k < 16 && |hashR| == 8
  {
    if k < 8 then forall i :: 0 <= i < 8 - k ==> hashR[i] == StateWords(d)[k + i]
    else forall i :: 0 <= i < 16 - k ==> hashR[i] == TAIL[k - 8 + i]
  }

  lemma FeedStarts(d: State)
    ensures Feeds(d, 0, StateWords(d))
  {
  }

  /** What the register takes on a clock edge of the feed. */
  function FeedNext(cnt: nat, hashR: seq<Word>): (next: seq<Word>)
    requires |hashR| == 8
    ensures |next| == 8
  {
    if cnt != 7 then hashR[1..] + [0] else TAIL
  }

  lemma FeedAdvances(d: State, k: nat, hashR: seq<Word>)
    requires k < 15 && |hashR| == 8 && Feeds(d, k, hashR)
    ensures Feeds(d, k + 1, FeedNext(k, hashR))
  {
    if k != 7 {
      assert forall i :: 0 <= i < 7 ==> FeedNext(k, hashR)[i] == hashR[i + 1];
    }
  }

  class Sequencer {
    var start: bool
    var cnt: nat              // 4 bits
    var hashR: seq<Word>      // 256 bits

    ghost var digest: State   // the digest last captured
    ghost var ready: bool     // captured and not yet fed

    ghost predicate Holds()
      reads this
    {
      && cnt < 16 && |hashR| == 8
      && (!start ==> cnt == 0)
      && (start ==> Feeds(digest, cnt, hashR))
      && (ready ==> !start && hashR == StateWords(digest))
    }

    constructor ()
      ensures Holds() && !start && !ready
    {
      start, cnt, hashR, ready := false, 0, seq(8, _ => 0), false;
      digest := State(0, 0, 0, 0, 0, 0, 0, 0);
    }

    /** The rising clock edge; `dbl_vld` is `start` and `dbl_din` is the top word of `hashR`. */
    method Clock(regDbl: bool, done: bool, hash: State)
      requires Holds()
      requires regDbl ==> ready && !done
      requires done ==> !start
      modifies this
      ensures Holds()
      ensures start == (regDbl || (old(start) && old(cnt) < 15))
      ensures cnt == if start && old(start) then old(cnt) + 1 else 0
      ensures digest == if done then hash else old(digest)
      ensures ready == (done || (old(ready) && !regDbl))
    {
      hide Feeds, FeedNext;
      if start && cnt < 15 { FeedAdvances(digest, cnt, hashR); }
      FeedStarts(digest);

      var nextStart := if regDbl then true else if cnt == 15 then false else start;
      var nextCnt := if start then (cnt + 1) % 16 else cnt;
      var nextHash := if done then StateWords(hash) else if start then FeedNext(cnt, hashR) else hashR;
      start, cnt, hashR := nextStart, nextCnt, nextHash;
      digest, ready := if done then hash else digest, done || (ready && !regDbl);
    }
  }

  /** While it feeds, the k-th word offered is the k-th word of the second block. */
  lemma OffersSecondBlock(d: State, k: nat, hashR: seq<Word>)
    requires k < 16 && |hashR| == 8 && Feeds(d, k, hashR)
    ensures hashR[0] == SecondBlock(d)[k]
  {
  }
}
