/** The compression circuit: one round a clock, a sliding 16-word schedule, stalls on `vld`. */
module ShaCore {
  import opened Words
  import opened Sha256
  import opened Options

  // The combinational wires. A concatenation {x[n-1:0], x[31:n]} is (x << 32-n) | (x >> n).

  function F1(e: Word, f: Word, g: Word): Word { (e & f) ^ (!e & g) }

  function F2(a: Word, b: Word, c: Word): Word { (a & b) ^ (b & c) ^ (a & c) }

  function F3(a: Word): Word { ((a << 30) | (a >> 2)) ^ ((a << 19) | (a >> 13)) ^ ((a << 10) | (a >> 22)) }

  function F4(e: Word): Word { ((e << 26) | (e >> 6)) ^ ((e << 21) | (e >> 11)) ^ ((e << 7) | (e >> 25)) }

  function F5(w1: Word): Word { ((w1 << 25) | (w1 >> 7)) ^ ((w1 << 14) | (w1 >> 18)) ^ (w1 >> 3) }

  function F6(w14: Word): Word { ((w14 << 15) | (w14 >> 17)) ^ ((w14 << 13) | (w14 >> 19)) ^ (w14 >> 10) }

  function T1(e: Word, f: Word, g: Word, h: Word, kt: Word, wt: Word): Word {
    Plus(Plus(Plus(Plus(h, F4(e)), F1(e, f, g)), kt), wt)
  }

  function T2(a: Word, b: Word, c: Word): Word { Plus(F3(a), F2(a, b, c)) }

  function NextWt(w14: Word, w9: Word, w1: Word, w0: Word): Word {
    Plus(Plus(Plus(F6(w14), w9), F5(w1)), w0)
  }

  lemma LogicWires(x: Word, y: Word, z: Word)
    ensures F1(x, y, z) == Ch(x, y, z) && F2(x, y, z) == Maj(x, y, z)
  {
  }

  lemma SigmaWires(x: Word)
    ensures F3(x) == BigSigma0(x) && F4(x) == BigSigma1(x)
    ensures F5(x) == SmallSigma0(x) && F6(x) == SmallSigma1(x)
  {
  }

  lemma ScheduleWires(w14: Word, w9: Word, w1: Word, w0: Word)
    ensures NextWt(w14, w9, w1, w0) == NextScheduled(w14, w9, w1, w0)
  {
    hide Plus, SmallSigma0, SmallSigma1, F5, F6;
    SigmaWires(w14);
    SigmaWires(w1);
  }

  /** What the registers A..H take on a shifting clock edge. */
  function NextVars(v: State, kt: Word, wt: Word): State {
    var t1 := T1(v.e, v.f, v.g, v.h, kt, wt);
    State(Plus(t1, T2(v.a, v.b, v.c)), v.a, v.b, v.c, Plus(v.d, t1), v.e, v.f, v.g)
  }

  /** The wires compute one round of the standard. */
  lemma RoundWires(v: State, kt: Word, wt: Word)
    ensures NextVars(v, kt, wt) == Round(v, kt, wt)
  {
    hide Plus, Ch, Maj, BigSigma0, BigSigma1, F1, F2, F3, F4;
    LogicWires(v.e, v.f, v.g);
    LogicWires(v.a, v.b, v.c);
    SigmaWires(v.a);
    SigmaWires(v.e);
  }

  /** A block in flight: the chaining value it started from, the words accepted so far, and the
      clocks since the sixteenth. */
  datatype View = View(chain: State, words: seq<Word>, extra: nat)

  predicate WellFormed(s: View) {
    |s.words| <= 16 && s.extra <= 48 && (s.extra > 0 ==> |s.words| == 16)
  }

  predicate Resting(s: View) {
    s.words == [] && s.extra == 0
  }

  /** One clock as a user of the core sees it. `din` is None when `vld` is low. */
  function Step(s: View, init: Option<State>, din: Option<Word>): View
    requires WellFormed(s)
  {
    if init.Some? then View(init.value, [], 0)
    else if |s.words| < 16 then (if din.Some? then s.(words := s.words + [din.value]) else s)
    else if s.extra < 48 then s.(extra := s.extra + 1)
    else View(Compress(s.chain, s.words), [], 0)
  }

  /** The six values the A3255 chip wants: a after rounds 1, 2, 3, then e after rounds 1, 2, 3. */
  function Precalc(chain: State, words: seq<Word>): seq<Word>
    requires 3 <= |words| <= 16
  {
    [Rounds(chain, words, 1).a, Rounds(chain, words, 2).a, Rounds(chain, words, 3).a,
     Rounds(chain, words, 1).e, Rounds(chain, words, 2).e, Rounds(chain, words, 3).e]
  }

  /** A..H are `round` - 1 rounds into the block; Wt and Kt feed the next one. */
  ghost predicate VarsHold(s: View, round: nat, v: State, wt: Word, kt: Word)
    requires WellFormed(s) && round == |s.words| + s.extra
  {
    if round == 0 then v == s.chain
    else v == Rounds(s.chain, s.words, round - 1) && wt == Schedule(s.words, round - 1) && kt == K(round - 1)
  }

  /** W0..W14 are the accepted words, later the last fifteen schedule words before Wt. */
  ghost predicate WindowHolds(s: View, w: seq<Word>)
    requires WellFormed(s) && |w| == 15
  {
    if s.extra == 0 then forall i :: 0 <= i < |s.words| && i < 15 ==> w[i] == s.words[i]
    else forall i :: 0 <= i < 15 ==> w[i] == Schedule(s.words, s.extra + i)
  }

  ghost predicate PreHolds(s: View, round: nat, pre: seq<Word>)
    requires WellFormed(s) && round == |s.words| + s.extra && |pre| == 6
  {
    && (round > 1 ==> pre[0] == Rounds(s.chain, s.words, 1).a && pre[3] == Rounds(s.chain, s.words, 1).e)
    && (round > 2 ==> pre[1] == Rounds(s.chain, s.words, 2).a && pre[4] == Rounds(s.chain, s.words, 2).e)
    && (round > 3 ==> pre[2] == Rounds(s.chain, s.words, 3).a && pre[5] == Rounds(s.chain, s.words, 3).e)
  }

  /** One round more brings the variables one round further. */
  lemma VarsAdvance(s: View, round: nat, v: State, wt: Word, kt: Word)
    requires WellFormed(s) && 1 <= round == |s.words| + s.extra && VarsHold(s, round, v, wt, kt)
    ensures NextVars(v, kt, wt) == Rounds(s.chain, s.words, round)
  {
    hide NextVars, Round, Schedule;
    RoundWires(v, kt, wt);
  }

  /** The schedule window slides by one word. */
  lemma WindowSlides(s: View, w: seq<Word>, wt: Word)
    requires WellFormed(s) && |s.words| == 16 && s.extra < 48 && |w| == 15
    requires WindowHolds(s, w) && wt == Schedule(s.words, s.extra + 15)
    ensures WindowHolds(s.(extra := s.extra + 1), w[1..] + [wt])
    ensures NextWt(w[14], w[9], w[1], w[0]) == Schedule(s.words, s.extra + 16)
  {
    hide NextWt, NextScheduled;
    ScheduleWires(w[14], w[9], w[1], w[0]);
    var t := s.extra + 16;
    assert w[14] == Schedule(s.words, t - 2) && w[9] == Schedule(s.words, t - 7);
    assert w[1] == Schedule(s.words, t - 15) && w[0] == Schedule(s.words, t - 16);
    forall i | 0 <= i < 15 ensures (w[1..] + [wt])[i] == Schedule(s.words, s.extra + 1 + i) {
      assert i < 14 ==> (w[1..] + [wt])[i] == w[i + 1] == Schedule(s.words, s.extra + (i + 1));
    }
  }

  lemma VarsSlide(s: View, round: nat, v: State, w: seq<Word>, wt: Word, kt: Word)
    requires WellFormed(s) && |s.words| == 16 && s.extra < 48 && |w| == 15 && round == 16 + s.extra
    requires VarsHold(s, round, v, wt, kt) && WindowHolds(s, w)
    ensures wt == Schedule(s.words, s.extra + 15)
    ensures forall pre :: |pre| == 6 && PreHolds(s, round, pre) ==> PreHolds(s.(extra := s.extra + 1), round + 1, pre)
    ensures VarsHold(s.(extra := s.extra + 1), round + 1, NextVars(v, kt, wt), NextWt(w[14], w[9], w[1], w[0]), K(round))
  {
    hide NextVars, NextWt, K, Schedule, Rounds;
    VarsAdvance(s, round, v, wt, kt);
    WindowSlides(s, w, wt);
  }

  /** An accepted word leaves the rounds already done as they were. */
  lemma RoundsKeep(s: View, din: Word)
    requires WellFormed(s) && |s.words| < 16
    ensures forall t :: 0 <= t <= |s.words| ==> Rounds(s.chain, s.words + [din], t) == Rounds(s.chain, s.words, t)
  {
    forall t | 0 <= t <= |s.words| ensures Rounds(s.chain, s.words + [din], t) == Rounds(s.chain, s.words, t) {
      RoundsPrefix(s.chain, s.words, din, t);
    }
  }

  lemma VarsAccept(s: View, round: nat, v: State, wt: Word, kt: Word, din: Word)
    requires WellFormed(s) && 0 < |s.words| < 16 && round == |s.words| && VarsHold(s, round, v, wt, kt)
    ensures VarsHold(s.(words := s.words + [din]), round + 1, NextVars(v, kt, wt), din, K(round))
  {
    hide NextVars, K;
    VarsAdvance(s, round, v, wt, kt);
    RoundsKeep(s, din);
  }

  lemma WindowAccept(s: View, w: seq<Word>, din: Word)
    requires WellFormed(s) && |s.words| < 16 && |w| == 15 && WindowHolds(s, w)
    ensures WindowHolds(s.(words := s.words + [din]), if |s.words| < 15 then w[|s.words| := din] else w)
  {
  }

  lemma PreAccept(s: View, round: nat, v: State, wt: Word, kt: Word, pre: seq<Word>, din: Word)
    requires WellFormed(s) && 0 < |s.words| < 16 && round == |s.words| && VarsHold(s, round, v, wt, kt)
    requires |pre| == 6 && PreHolds(s, round, pre)
    ensures var next := NextVars(v, kt, wt);
      PreHolds(s.(words := s.words + [din]), round + 1,
               if round < 4 then pre[round - 1 := next.a][round + 2 := next.e] else pre)
  {
    hide NextVars, K, Rounds;
    RoundsKeep(s, din);
    VarsAdvance(s, round, v, wt, kt);
  }

  lemma PreDone(s: View, pre: seq<Word>)
    requires WellFormed(s) && s.extra == 48 && |pre| == 6 && PreHolds(s, 64, pre)
    ensures pre == Precalc(s.chain, s.words)
  {
    hide Rounds;
  }

  lemma AtRest(s: View, w: seq<Word>, pre: seq<Word>, wt: Word, kt: Word)
    requires Resting(s) && |w| == 15 && |pre| == 6
    ensures VarsHold(s, 0, s.chain, wt, kt) && WindowHolds(s, w) && PreHolds(s, 0, pre)
  {
  }

  class Core {
    var round: nat            // 7 bits
    var h: State              // H0..H7
    var w: seq<Word>          // W0..W14
    var wt: Word
    var kt: Word
    var v: State              // A..H
    var pre: seq<Word>        // A0, A1, A2, E0, E1, E2
    var done: bool

    ghost var view: View

    /** What the registers hold while the block `view` is in flight. */
    ghost predicate Holds()
      reads this
    {
      && WellFormed(view)
      && |w| == 15 && |pre| == 6
      && round == |view.words| + view.extra
      && (done ==> Resting(view))
      && (if done then v == view.chain else h == view.chain)
      && VarsHold(view, round, v, wt, kt)
      && WindowHolds(view, w)
      && PreHolds(view, round, pre)
    }

    /** Power-on reset. */
    constructor ()
      ensures Holds() && Resting(view) && !done && round == 0
    {
      round, done := 0, false;
      var zero := State(0, 0, 0, 0, 0, 0, 0, 0);
      v, h := zero, zero;
      w, pre := seq(15, _ => 0), seq(6, _ => 0);
      wt, kt := 0, 0;
      view := View(zero, [], 0);
    }

    // The always blocks, gathered by what the round counter selects. All of them see the
    // registers as they were before the edge, so A..H are read into H0..H7 before they move.

    /** `init`, at round 0. */
    method Load(hx: State, vld: bool)
      requires Holds() && Resting(view)
      modifies this
      ensures Holds() && view == View(hx, [], 0) && !done
      ensures pre == old(pre)
    {
      hide K;
      if vld { kt := K(0); }
      v, h, done := hx, hx, false;
      view := View(hx, [], 0);
    }

    /** `init` during a block: the chaining value is replaced but the round counter and the schedule go
        on, so what comes out is the hash of nothing in particular. */
    method Overrun(hx: State, vld: bool)
      requires Holds() && !Resting(view)
      modifies this`v, this`h, this`kt, this`done
      ensures v == hx && h == hx && (done <==> round == 64)
      ensures kt == if round < 16 && !vld then old(kt) else if round < 64 then K(round) else 0
    {
      hide K;
      if round == 64 { kt := 0; } else if round >= 16 || vld { kt := K(round); }
      v, h, done := hx, hx, round == 64;
    }

    /** Rounds 0 to 15 with `vld` low. */
    method Stall()
      requires Holds() && |view.words| < 16
      modifies this
      ensures Holds() && view == old(view) && !done
      ensures pre == old(pre)
    {
      hide K, Rounds, Schedule;
      if done { h := v; }
      done := false;
    }

    /** Round 0 with `vld` high. */
    method AcceptFirst(din: Word)
      requires Holds() && Resting(view)
      modifies this
      ensures Holds() && view == old(view.(words := [din])) && !done
      ensures pre == old(pre)
    {
      hide K;
      if done { h := v; }
      w, wt, kt, round, done := w[0 := din], din, K(0), 1, false;
      view := view.(words := [din]);
    }

    /** Rounds 1 to 15 with `vld` high. */
    method Accept(din: Word)
      requires Holds() && 0 < |view.words| < 16
      modifies this
      ensures Holds() && view == old(view.(words := view.words + [din])) && !done
    {
      hide NextVars, K, Schedule, Rounds, VarsHold, WindowHolds, PreHolds;
      WindowAccept(view, w, din);
      VarsAccept(view, round, v, wt, kt, din);
      PreAccept(view, round, v, wt, kt, pre, din);
      var next := NextVars(v, kt, wt);
      var nextW := if round < 15 then w[round := din] else w;
      var nextPre := if round < 4 then pre[round - 1 := next.a][round + 2 := next.e] else pre;
      v, w, pre, wt, kt, round := next, nextW, nextPre, din, K(round), round + 1;
      view := view.(words := view.words + [din]);
    }

    /** Rounds 16 to 63. */
    method Slide()
      requires Holds() && |view.words| == 16 && view.extra < 48
      modifies this
      ensures Holds() && view == old(view.(extra := view.extra + 1)) && !done
    {
      hide NextVars, NextWt, K, Schedule, Rounds, VarsHold, WindowHolds, PreHolds;
      VarsSlide(view, round, v, w, wt, kt);
      WindowSlides(view, w, wt);
      w, wt, v, kt, round := w[1..] + [wt], NextWt(w[14], w[9], w[1], w[0]), NextVars(v, kt, wt), K(round), round + 1;
      view := view.(extra := view.extra + 1);
    }

    /** Round 64 adds the chaining value and raises `done`. */
    method Finish()
      requires Holds() && view.extra == 48
      modifies this
      ensures Holds() && view == View(Compress(old(view.chain), old(view.words)), [], 0) && done
      ensures pre == Precalc(old(view.chain), old(view.words))
    {
      hide NextVars, K, Schedule, Rounds, Add, VarsHold, WindowHolds, PreHolds, Precalc;
      VarsAdvance(view, round, v, wt, kt);
      PreDone(view, pre);
      v, kt, round, done := Add(NextVars(v, kt, wt), h), 0, 0, true;
      view := View(Compress(view.chain, view.words), [], 0);
      AtRest(view, w, pre, wt, kt);
    }

    /** The rising clock edge. */
    method Clock(init: bool, hx: State, vld: bool, din: Word)
      requires Holds()
      modifies this
      ensures !init || old(Resting(view)) ==>
        Holds() && view == Step(old(view), if init then Some(hx) else None, if vld then Some(din) else None)
      ensures done <==> old(view.extra) == 48
      ensures done && !init ==> pre == Precalc(old(view.chain), old(view.words))
      ensures init || old(Resting(view)) ==> pre == old(pre)
      ensures init && !old(Resting(view)) ==>
        round == old(round) && w == old(w) && wt == old(wt) && v == hx && h == hx && view == old(view)
    {
      hide Rounds, Schedule, K, Compress, Precalc, VarsHold, WindowHolds, PreHolds;
      if init && round == 0 {
        Load(hx, vld);
      } else if init {
        Overrun(hx, vld);
      } else if round < 16 {
        if !vld { Stall(); } else if round == 0 { AcceptFirst(din); } else { Accept(din); }
      } else if round < 64 {
        Slide();
      } else {
        Finish();
      }
    }
  }
}
