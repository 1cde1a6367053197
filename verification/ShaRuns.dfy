/** Whole runs of the compression circuit: any stalls, any number of blocks. */
module ShaRuns {
  import opened Words
  import opened Sha256
  import opened Options
  import opened ShaCore

  /** What is on the data input at each clock; None while `vld` is low. */
  type Inputs = seq<Option<Word>>

  /** The view after clocks without `init`. */
  function RunCore(s: View, ins: Inputs): (t: View)
    requires WellFormed(s)
    ensures WellFormed(t)
    decreases |ins|
  {
    if ins == [] then s else RunCore(ShaCore.Step(s, None, ins[0]), ins[1..])
  }

  /** The words offered, in order. */
  function Offered(ins: Inputs): seq<Word>
    decreases |ins|
  {
    if ins == [] then []
    else (match ins[0] case Some(w) => [w] case None => []) + Offered(ins[1..])
  }

  /** Sixteen words with any stalls before each of them, then the 49 clocks up to the result, whatever
      is on the input meanwhile. */
  datatype Burst = Burst(feed: Inputs, rest: Inputs)

  predicate Whole(b: Burst) {
    |Offered(b.feed)| == 16 && b.feed[|b.feed| - 1].Some? && |b.rest| == 49
  }

  lemma {:induction false} RunAppend(s: View, a: Inputs, b: Inputs)
    requires WellFormed(s)
    ensures RunCore(s, a + b) == RunCore(RunCore(s, a), b)
    decreases |a|
  {
    if a == [] {
      assert a + b == b;
    } else {
      RunAppend(ShaCore.Step(s, None, a[0]), a[1..], b);
      assert (a + b)[1..] == a[1..] + b;
    }
  }

  /** Loading takes exactly the offered words. */
  lemma {:induction false} Loading(s: View, ins: Inputs)
    requires WellFormed(s) && s.extra == 0 && |s.words| + |Offered(ins)| <= 16
    requires |s.words| + |Offered(ins)| == 16 && ins != [] ==> ins[|ins| - 1].Some?
    ensures RunCore(s, ins) == s.(words := s.words + Offered(ins))
    decreases |ins|
  {
    if ins == [] {
      assert s.words + [] == s.words;
    } else {
      if |s.words| == 16 {
        LastCounts(ins);
      }
      if |ins| > 1 {
        assert ins[1..][|ins| - 2] == ins[|ins| - 1];
      }
      var next := ShaCore.Step(s, None, ins[0]);
      Loading(next, ins[1..]);
      if ins[0].Some? {
        assert s.words + Offered(ins) == s.words + [ins[0].value] + Offered(ins[1..]);
      }
    }
  }

  lemma {:induction false} LastCounts(ins: Inputs)
    requires ins != [] && ins[|ins| - 1].Some?
    ensures Offered(ins) != []
    decreases |ins|
  {
    if |ins| > 1 {
      LastCounts(ins[1..]);
    }
  }

  /** Once loaded, the core counts its clocks and ignores the input. */
  lemma {:induction false} Sliding(s: View, ins: Inputs)
    requires WellFormed(s) && |s.words| == 16 && s.extra + |ins| <= 48
    ensures RunCore(s, ins) == s.(extra := s.extra + |ins|)
    decreases |ins|
  {
    if ins != [] {
      Sliding(ShaCore.Step(s, None, ins[0]), ins[1..]);
    }
  }

  /** Whatever the stalls, the core is busy until the 49th clock after the sixteenth word, and then
      holds the compression of the sixteen words. */
  lemma AnyStalls(chain: State, b: Burst)
    requires Whole(b)
    ensures RunCore(View(chain, [], 0), b.feed + b.rest) == View(Compress(chain, Offered(b.feed)), [], 0)
    ensures forall n :: 0 <= n < 49 ==>
      RunCore(View(chain, [], 0), b.feed + b.rest[..n]) == View(chain, Offered(b.feed), n)
  {
    hide Compress;
    var start, loaded := View(chain, [], 0), View(chain, Offered(b.feed), 0);
    Loading(start, b.feed);
    assert [] + Offered(b.feed) == Offered(b.feed);
    forall n | 0 <= n < 49 ensures RunCore(start, b.feed + b.rest[..n]) == loaded.(extra := n) {
      RunAppend(start, b.feed, b.rest[..n]);
      Sliding(loaded, b.rest[..n]);
    }
    var last := b.rest[48..];
    assert last[1..] == [] && b.feed + b.rest == (b.feed + b.rest[..48]) + last;
    RunAppend(start, b.feed + b.rest[..48], last);
  }

  function Clocks(bursts: seq<Burst>): Inputs
    decreases |bursts|
  {
    if bursts == [] then [] else bursts[0].feed + bursts[0].rest + Clocks(bursts[1..])
  }

  /** Compression folded over the offered blocks. */
  function Folded(chain: State, bursts: seq<Burst>): State
    requires forall i :: 0 <= i < |bursts| ==> Whole(bursts[i])
    decreases |bursts|
  {
    if bursts == [] then chain else
      assert Whole(bursts[0]);
      Folded(Compress(chain, Offered(bursts[0].feed)), bursts[1..])
  }

  /** Blocks one after the other, with stalls anywhere, chain. */
  lemma {:induction false} AnyBlocks(chain: State, bursts: seq<Burst>)
    requires forall i :: 0 <= i < |bursts| ==> Whole(bursts[i])
    ensures RunCore(View(chain, [], 0), Clocks(bursts)) == View(Folded(chain, bursts), [], 0)
    decreases |bursts|
  {
    hide Compress;
    if bursts != [] {
      var b := bursts[0];
      AnyStalls(chain, b);
      RunAppend(View(chain, [], 0), b.feed + b.rest, Clocks(bursts[1..]));
      AnyBlocks(Compress(chain, Offered(b.feed)), bursts[1..]);
    }
  }

  /** The registers over a burst of clocks: at its end `done` is high and A..H are the result. */
  method ClockBurst(core: Core, b: Burst)
    requires core.Holds() && Resting(core.view) && Whole(b)
    modifies core
    ensures core.Holds() && core.done && core.v == Compress(old(core.view.chain), Offered(b.feed))
    ensures core.view == View(core.v, [], 0)
  {
    hide Core.Holds, Compress, Offered;
    ghost var start := core.view;
    var ins := b.feed + b.rest;
    AnyStalls(start.chain, b);
    var t := 0;
    while t < |ins|
      invariant 0 <= t <= |ins| && core.Holds() && WellFormed(core.view)
      invariant core.view == RunCore(start, ins[..t])
      invariant t > 0 ==> (core.done <==> RunCore(start, ins[..t - 1]).extra == 48)
    {
      var idle := State(0, 0, 0, 0, 0, 0, 0, 0);
      RunNext(start, ins, t);
      core.Clock(false, idle, ins[t] != None, if ins[t].Some? then ins[t].value else 0);
      ViewFits(core);
      t := t + 1;
      assert ins[..t][..t - 1] == ins[..t - 1];
    }
    assert ins[..|ins|] == ins && ins[..|ins| - 1] == b.feed + b.rest[..48];
    DoneShows(core);
  }

  lemma RunNext(s: View, ins: Inputs, t: nat)
    requires WellFormed(s) && t < |ins|
    ensures RunCore(s, ins[..t + 1]) == ShaCore.Step(RunCore(s, ins[..t]), None, ins[t])
  {
    var last := [ins[t]];
    assert ins[..t + 1] == ins[..t] + last && last[1..] == [];
    RunAppend(s, ins[..t], last);
    assert RunCore(RunCore(s, ins[..t]), last) == RunCore(ShaCore.Step(RunCore(s, ins[..t]), None, ins[t]), []);
  }

  lemma ViewFits(core: Core)
    requires core.Holds()
    ensures WellFormed(core.view)
  {
    hide VarsHold, WindowHolds, PreHolds;
  }

  lemma DoneShows(core: Core)
    requires core.Holds() && core.done
    ensures core.v == core.view.chain
  {
    hide VarsHold, WindowHolds, PreHolds;
  }
}
