/** The SHA-256 peripheral: bus registers around the core and the double-hash sequencer. */
module ShaUnit {
  import opened Words
  import opened Sha256
  import opened ShaCore
  import opened DblSha
  import opened Options

  const CMD: Word := 0x0
  const DIN: Word := 0x4
  const HASH: Word := 0x8
  const HI: Word := 0xc
  const PRE: Word := 0x10

  const CMD_INIT: Word := 1
  const CMD_DONE: Word := 2
  const CMD_RST: Word := 4
  const CMD_DBL: Word := 8

  /** What the peripheral is doing with a block: taking its words, or `left` clocks from its hash value. */
  datatype Phase =
    | Loading(chain: State, words: seq<Word>)
    | Busy(chain: State, words: seq<Word>, left: nat)

  /** A clock in which nothing is written brings a hash one clock nearer. */
  function Tick(p: Phase): Phase {
    if p.Busy? && p.left > 0 then p.(left := p.left - 1) else p
  }

  function ShiftHx(hx: State, w: Word): State {
    State(hx.b, hx.c, hx.d, hx.e, hx.f, hx.g, hx.h, w)
  }

  /** The bus registers of the peripheral. */
  datatype Registers = Registers(
    ack: bool, init: bool, done: bool, rst: bool, dbl: bool, din: Word, vld: bool, hx: State,
    hashCnt: nat, hashRdR: bool, preCnt: nat, preRdR: bool, cmdRdF: bool, hashRdF: bool)

  /** What they take on a clock edge: `SHA_STB_I`, `SHA_WE_I`, `SHA_ADR_I`, `SHA_DAT_I`, and the core's `done`. */
  function Next(r: Registers, stb: bool, we: bool, adr: Word, dat: Word, done: bool): (n: Registers)
    requires r.hashCnt < 8 && r.preCnt < 8
    ensures n.hashCnt < 8 && n.preCnt < 8
  {
    var en := stb && !r.ack;
    var cmdWr, dinWr, hiWr := en && we && adr == CMD, en && we && adr == DIN, en && we && adr == HI;
    Registers(
      en,
      cmdWr && (dat & CMD_INIT != 0 || dat & CMD_DBL != 0),
      if done then true else if dinWr || (cmdWr && dat & CMD_DBL != 0) then false else r.done,
      cmdWr && dat & CMD_RST != 0,
      cmdWr && dat & CMD_DBL != 0,
      if dinWr then dat else r.din,
      dinWr,
      if r.rst then INITIAL else if hiWr then ShiftHx(r.hx, dat) else r.hx,
      if r.init then 0 else if r.hashRdR then (r.hashCnt + 1) % 8 else r.hashCnt,
      en && !we && adr == HASH,
      if r.init then 0 else if r.preRdR then (r.preCnt + 1) % 8 else r.preCnt,
      en && !we && adr == PRE,
      en && !we && adr == CMD,
      en && !we && adr == HASH)
  }

  /** A data word or a DBL command is written. */
  predicate Clears(r: Registers, stb: bool, we: bool, adr: Word, dat: Word) {
    stb && !r.ack && we && (adr == DIN || (adr == CMD && dat & CMD_DBL != 0))
  }

  const RESET := Registers(false, false, false, false, false, 0, false, INITIAL, 0, false, 0, false, false, false)

  /** No block is in flight: every word accepted so far is hashed. */
  predicate Idle(p: Phase) {
    if p.Loading? then p.words == [] else p.left == 0 && |p.words| == 16
  }

  /** The hash value held while idle. */
  function Held(p: Phase): State
    requires Idle(p)
  {
    if p.Loading? then p.chain else Compress(p.chain, p.words)
  }

  /** The same work, perhaps nearer its end. */
  predicate Later(p: Phase, q: Phase) {
    if p.Busy? then q.Busy? && q.chain == p.chain && q.words == p.words && q.left <= p.left else q == p
  }

  // The core and the sequencer while they work on a block

  /** What they hold: the block in the core, its `done` and `pre`, the sequencer's `start` and `cnt`, the
      digest captured and not yet fed, and the DONE bit. */
  datatype Work = Work(view: View, done: bool, pre: seq<Word>, start: bool, cnt: nat, digest: State, ready: bool, shown: bool)

  /** They are in that phase. */
  predicate Doing(p: Phase, s: Work) {
    match p
    case Loading(c, ws) => !s.start && !s.done && |ws| < 16 && s.view == View(c, ws, 0)
    case Busy(c, ws, n) =>
      && |ws| == 16
      && (if n == 0 then
            && !s.start && !s.done && s.shown && s.view == View(Compress(c, ws), [], 0)
            && s.ready && s.digest == Compress(c, ws) && s.pre == Precalc(c, ws)
          else if n == 1 then
            !s.start && s.done && !s.shown && s.view == View(Compress(c, ws), [], 0) && s.pre == Precalc(c, ws)
          else if n <= 50 then
            !s.start && !s.done && !s.shown && s.view == View(c, ws, 50 - n)
          else
            && n <= 66 && s.start && s.cnt == 66 - n && !s.done && !s.shown
            && ws == SecondBlock(s.digest) && s.view == View(c, ws[..s.cnt], 0))
  }

  /** What they were given on a clock edge: an initial value, a word, a command to feed the digest, and a
      write that takes the DONE bit back. */
  datatype Given = Given(init: Option<State>, word: Option<Word>, feed: bool, clear: bool)

  predicate Clocked(s: Work, g: Given, t: Work)
    requires WellFormed(s.view)
  {
    && t.view == Step(s.view, g.init, g.word)
    && (t.done <==> s.view.extra == 48)
    && (t.done && g.init == None && |s.view.words| == 16 ==> t.pre == Precalc(s.view.chain, s.view.words))
    && (Resting(s.view) ==> t.pre == s.pre)
    && t.start == (g.feed || (s.start && s.cnt < 15))
    && t.cnt == (if t.start && s.start then s.cnt + 1 else 0)
    && t.digest == (if s.done then s.view.chain else s.digest)
    && t.ready == (s.done || (s.ready && !g.feed))
    && t.shown == (s.done || (s.shown && !g.clear))
  }

  /** A clock with nothing new; while words are awaited the DONE bit may be taken back. */
  lemma Ticks(p: Phase, s: Work, g: Given, t: Work)
    requires WellFormed(s.view) && Doing(p, s) && Clocked(s, g, t)
    requires g.init == None && !g.feed && (g.clear ==> p.Loading?)
    ensures p.Loading? ==> t.ready == s.ready && t.digest == s.digest
    requires g.word == if s.start && s.cnt < 16 then Some(SecondBlock(s.digest)[s.cnt]) else None
    ensures Doing(Tick(p), t)
  {
    hide Compress, Precalc, SecondBlock;
    if p.Busy? && p.left > 50 {
      var k := s.cnt;
      assert p.words[..k] + [p.words[k]] == p.words[..k + 1] && p.words[..16] == p.words;
    }
  }

  /** A clock whose word the core takes. */
  lemma TakesWord(c: State, ws: seq<Word>, s: Work, g: Given, t: Work)
    requires WellFormed(s.view) && Doing(Loading(c, ws), s) && !s.shown && Clocked(s, g, t)
    requires g.init == None && !g.feed && g.word.Some?
    ensures var next := ws + [g.word.value]; Doing(if |next| < 16 then Loading(c, next) else Busy(c, next, 50), t)
  {
    hide Compress, Precalc, SecondBlock;
  }

  /** A clock on which an idle core takes a new initial value and perhaps the command to feed its digest. */
  lemma TakesInit(s: Work, g: Given, t: Work)
    requires Resting(s.view) && Clocked(s, g, t) && !s.start && !s.done && g.init.Some? && g.word == None
    ensures !g.feed ==> Doing(Loading(g.init.value, []), t)
    ensures g.feed && !s.shown ==> Doing(Busy(g.init.value, SecondBlock(s.digest), 66), t)
  {
    hide SecondBlock;
  }

  class Unit {
    const core: Core
    const dbl: Sequencer
    var r: Registers

    ghost var phase: Phase

    ghost function Repr(): set<object> { {this, core, dbl} }

    /** No command or data word is on its way from the bus registers to the core. */
    ghost predicate Calm()
      reads this
    {
      !r.init && !r.rst && !r.dbl && !r.vld && r.hashCnt < 8 && r.preCnt < 8
    }

    ghost function Now(): Work
      reads Repr()
    {
      Work(core.view, core.done, core.pre, dbl.start, dbl.cnt, dbl.digest, dbl.ready, r.done)
    }

    ghost predicate Sound()
      reads Repr()
    {
      core.Holds() && dbl.Holds() && r.hashCnt < 8 && r.preCnt < 8
    }

    ghost predicate In(p: Phase)
      reads Repr()
    {
      Sound() && Calm() && Doing(p, Now())
    }

    /** What the core and the sequencer are given on an edge with these bus lines. */
    ghost function Feeding(stb: bool, we: bool, adr: Word, dat: Word): Given
      requires |dbl.hashR| == 8
      reads this, dbl
    {
      Given(if r.init then Some(r.hx) else None,
            if dbl.start then Some(dbl.hashR[0]) else if r.vld then Some(r.din) else None,
            r.dbl, Clears(r, stb, we, adr, dat))
    }

    /** Between bus cycles. */
    ghost predicate Valid()
      reads Repr()
    {
      In(phase) && !r.ack && !r.hashRdR && !r.preRdR
    }

    /** Power-on reset. */
    constructor ()
      ensures Valid() && fresh(Repr()) && phase.Loading? && phase.words == [] && r == RESET
    {
      core := new Core();
      dbl := new Sequencer();
      r := RESET;
      new;
      phase := Loading(core.view.chain, []);
    }

    /** The word on SHA_DAT_O. */
    function DatO(): Word
      requires r.hashCnt < 8 && |core.pre| == 6
      reads this, core
    {
      if r.cmdRdF then (if r.done then CMD_DONE else 0)
      else if r.hashRdF then StateWords(core.v)[r.hashCnt]
      else if r.preCnt < 6 then core.pre[r.preCnt] else 0
    }

    /** The rising clock edge. */
    method Clock(stb: bool, we: bool, adr: Word, dat: Word)
      requires Sound()
      requires r.init ==> Resting(core.view)
      requires r.dbl ==> dbl.ready && !core.done
      requires core.done ==> !dbl.start
      modifies Repr()
      ensures Sound() && Clocked(old(Now()), old(Feeding(stb, we, adr, dat)), Now())
      ensures r == Next(old(r), stb, we, adr, dat, old(core.done)) && phase == old(phase)
    {
      hide Precalc, Compress, Next, Clears, VarsHold, WindowHolds, PreHolds, Feeds;
      var done, hash, init, hx, start, feeding := core.done, core.v, r.init, r.hx, dbl.start, r.dbl;
      var vld, din := r.vld || start, if start then dbl.hashR[0] else r.din;
      ghost var was := r;
      r := Next(r, stb, we, adr, dat, done);
      DoneBit(was, stb, we, adr, dat, done);
      dbl.Clock(feeding, done, hash);
      core.Clock(init, hx, vld, din);
    }

    /** A clock that brings the core nothing new: the acknowledge clock of a cycle, a read, an idle bus, or
        the first clock of a write. */
    method QuietClock(stb: bool, we: bool, adr: Word, dat: Word)
      requires Sound() && Doing(phase, Now()) && !r.init && !r.vld && !r.dbl
      requires Clears(r, stb, we, adr, dat) ==> phase.Loading?
      modifies Repr()
      ensures Sound() && Doing(phase, Now()) && phase == Tick(old(phase))
      ensures r == Next(old(r), stb, we, adr, dat, old(core.done))
      ensures phase.Loading? ==> !old(core.done) && dbl.ready == old(dbl.ready) && dbl.digest == old(dbl.digest)
    {
      hide Compress, Precalc, VarsHold, WindowHolds, PreHolds, Feeds, Next, SecondBlock, Clears, Clocked, Doing, Feeding;
      PhaseAllows();
      FeedsBlock(stb, we, adr, dat);
      ghost var s, g := Now(), Feeding(stb, we, adr, dat);
      Clock(stb, we, adr, dat);
      Ticks(phase, s, g, Now());
      phase := Tick(phase);
    }

    /** While it feeds, the sequencer offers the word that is due. */
    lemma FeedsBlock(stb: bool, we: bool, adr: Word, dat: Word)
      requires Sound() && !r.init && !r.vld && !r.dbl
      ensures Now().view == core.view && WellFormed(core.view) && Now().cnt < 16
      ensures Feeding(stb, we, adr, dat) == Given(
        None, if Now().start then Some(SecondBlock(Now().digest)[Now().cnt]) else None, false, Clears(r, stb, we, adr, dat))
    {
      hide Feeds, SecondBlock, Clears;
      if dbl.start { OffersSecondBlock(dbl.digest, dbl.cnt, dbl.hashR); }
    }

    lemma PhaseAllows()
      requires Sound() && Doing(phase, Now())
      ensures (core.done ==> !dbl.start) && (phase.Loading? ==> !core.done && !dbl.start && WellFormed(core.view))
      ensures phase.Loading? && phase.words == [] ==> Resting(core.view)
    {
      hide Compress, Precalc, SecondBlock;
    }

    /** A clock that writes nothing. */
    method CalmClock(stb: bool, we: bool, adr: Word, dat: Word)
      requires In(phase) && (r.ack || !stb || !we)
      modifies Repr()
      ensures In(phase) && phase == Tick(old(phase))
      ensures r == Next(old(r), stb, we, adr, dat, old(core.done))
    {
      hide Doing, Next, Clears, Sound;
      CalmNext(r, stb, we, adr, dat, core.done);
      QuietClock(stb, we, adr, dat);
    }

    // Bus cycles, as the processor makes them: any number of idle clocks, then the strobe is
    // held until it is acknowledged, which takes two clocks.

    method Gap()
      requires Valid()
      modifies Repr()
      ensures Valid() && Later(old(phase), phase) && (phase.Loading? ==> r.done == old(r.done))
      ensures r.hx == old(r.hx) && r.hashCnt == old(r.hashCnt) && r.preCnt == old(r.preCnt)
    {
      hide In, Valid;
      var gap: nat :| true;
      while gap > 0
        invariant Valid() && Later(old(phase), phase) && (phase.Loading? ==> r.done == old(r.done))
        invariant r.hx == old(r.hx) && r.hashCnt == old(r.hashCnt) && r.preCnt == old(r.preCnt)
      {
        IdleClock();
        gap := gap - 1;
      }
    }

    method IdleClock()
      requires Valid()
      modifies Repr()
      ensures Valid() && Later(old(phase), phase) && (phase.Loading? ==> r.done == old(r.done))
      ensures r.hx == old(r.hx) && r.hashCnt == old(r.hashCnt) && r.preCnt == old(r.preCnt)
    {
      hide Doing;
      LoadingNotDone();
      CalmClock(false, false, 0, 0);
    }

    lemma LoadingNotDone()
      requires In(phase)
      ensures phase.Loading? ==> !core.done
    {
      hide Compress, Precalc, SecondBlock;
    }

    /** Forget how the held hash value came about. */
    ghost method Rest()
      requires Valid() && Idle(phase)
      modifies this`phase
      ensures Valid() && phase == Loading(Held(old(phase)), [])
    {
      phase := Loading(Held(phase), []);
    }

    lemma RestingOutput()
      requires In(phase) && Idle(phase)
      ensures core.v == Held(phase)
    {
    }

    /** `writel(CMD_RST, &cmd)` restores the standard's initial hash value, whatever the core is doing. */
    method WriteRst()
      requires Valid()
      modifies Repr()
      ensures Valid() && Later(old(phase), phase)
      ensures r.hx == INITIAL
    {
      hide Doing, Next;
      Gap();
      StrobeNext(r, CMD, CMD_RST, core.done);
      QuietClock(true, true, CMD, CMD_RST);
      AckNext(r, CMD, CMD_RST, core.done);
      QuietClock(true, true, CMD, CMD_RST);
    }

    /** `writel(w, &hi)` shifts one word into the initial hash value, whatever the core is doing. */
    method WriteHi(w: Word)
      requires Valid()
      modifies Repr()
      ensures Valid() && Later(old(phase), phase)
      ensures r.hx == ShiftHx(old(r.hx), w)
    {
      hide Doing, Next;
      Gap();
      StrobeNext(r, HI, w, core.done);
      QuietClock(true, true, HI, w);
      AckNext(r, HI, w, core.done);
      QuietClock(true, true, HI, w);
    }

    /** The acknowledge clock of an INIT or DBL command: the core takes the initial hash value. */
    method InitClock(dat: Word)
      requires Sound() && Doing(phase, Now()) && phase.Loading? && phase.words == [] && r.ack && r.init && !r.rst && !r.vld
      requires !r.hashRdR && !r.preRdR
      requires r.dbl ==> dbl.ready && !r.done
      modifies Repr()
      ensures In(phase) && phase == if old(r.dbl) then Busy(r.hx, SecondBlock(old(dbl.digest)), 66) else Loading(r.hx, [])
      ensures r == Next(old(r), true, true, CMD, dat, false) && r.hx == old(r.hx)
    {
      hide Compress, Precalc, SecondBlock, VarsHold, WindowHolds, PreHolds, Feeds, Clocked, Doing, Next;
      PhaseAllows();
      LoadingDone();
      AckNext(r, CMD, dat, false);
      ghost var s, g := Now(), Feeding(true, true, CMD, dat);
      Clock(true, true, CMD, dat);
      TakesInit(s, g, Now());
      phase := if g.feed then Busy(r.hx, SecondBlock(s.digest), 66) else Loading(r.hx, []);
    }

    lemma LoadingDone()
      requires Doing(phase, Now()) && phase.Loading?
      ensures !Now().done && !Now().start
    {
    }

    /** `writel(CMD_INIT, &cmd)` starts a message from the initial hash value. */
    method WriteInit()
      requires Valid() && Idle(phase)
      modifies Repr()
      ensures Valid() && phase == Loading(r.hx, []) && r.hx == old(r.hx)
      ensures r.hashCnt == 0 && r.preCnt == 0
    {
      hide Doing, Next;
      Gap();
      Rest();
      StrobeNext(r, CMD, CMD_INIT, core.done);
      QuietClock(true, true, CMD, CMD_INIT);
      AckNext(r, CMD, CMD_INIT, false);
      InitClock(CMD_INIT);
    }

    /** `writel(CMD_DBL, &cmd)` starts hashing the digest just computed. */
    method WriteDbl()
      requires Valid() && phase.Busy? && Idle(phase)
      modifies Repr()
      ensures Valid() && phase == Busy(r.hx, SecondBlock(Held(old(phase))), 66) && r.hx == old(r.hx)
      ensures r.hashCnt == 0 && r.preCnt == 0
    {
      hide Doing, Next, SecondBlock;
      Gap();
      ReadyDigest();
      Rest();
      StrobeNext(r, CMD, CMD_DBL, core.done);
      QuietClock(true, true, CMD, CMD_DBL);
      AckNext(r, CMD, CMD_DBL, false);
      InitClock(CMD_DBL);
    }

    lemma ReadyDigest()
      requires In(phase) && phase.Busy? && Idle(phase)
      ensures dbl.ready && dbl.digest == Held(phase)
    {
    }

    /** The acknowledge clock of a data write: the core takes the word. */
    method WordClock(w: Word)
      requires Sound() && Doing(phase, Now()) && phase.Loading? && r.ack && r.vld && r.din == w
      requires !r.init && !r.rst && !r.dbl && !r.done && !r.hashRdR && !r.preRdR
      modifies Repr()
      ensures var c, ws := old(phase).chain, old(phase).words + [w];
        In(phase) && phase == if |ws| < 16 then Loading(c, ws) else Busy(c, ws, 50)
      ensures r == Next(old(r), true, true, DIN, w, false)
    {
      hide Compress, Precalc, SecondBlock, VarsHold, WindowHolds, PreHolds, Feeds, Clocked, Doing, Next;
      PhaseAllows();
      LoadingDone();
      AckNext(r, DIN, w, false);
      ghost var s, g := Now(), Feeding(true, true, DIN, w);
      Clock(true, true, DIN, w);
      TakesWord(phase.chain, phase.words, s, g, Now());
      var c, ws := phase.chain, phase.words + [w];
      phase := if |ws| < 16 then Loading(c, ws) else Busy(c, ws, 50);
    }

    /** `writel(w, &din)` offers the core one word. */
    method WriteDin(w: Word)
      requires Valid() && (phase.Loading? || Idle(phase))
      modifies Repr()
      ensures Valid() && r.hx == old(r.hx) && r.hashCnt == old(r.hashCnt) && r.preCnt == old(r.preCnt)
      ensures var c, ws := if old(phase.Loading?) then old(phase.chain) else Held(old(phase)),
                           (if old(phase.Loading?) then old(phase.words) else []) + [w];
        phase == if |ws| < 16 then Loading(c, ws) else Busy(c, ws, 50)
    {
      hide Doing, Next, Compress;
      Gap();
      if phase.Busy? { Rest(); }
      StrobeNext(r, DIN, w, core.done);
      QuietClock(true, true, DIN, w);
      AckNext(r, DIN, w, false);
      WordClock(w);
    }

    /** `readl(&cmd)`: while a block is worked on, the DONE bit never shows before it is finished; before
        that the bit is the last block's. */
    method ReadCmd() returns (w: Word)
      requires Valid()
      modifies Repr()
      ensures Valid() && Later(old(phase), phase)
      ensures old(phase).Loading? ==> (w & CMD_DONE != 0 <==> old(r.done))
      ensures old(phase).Busy? && w & CMD_DONE != 0 ==> phase.left == 0
      ensures old(phase).Busy? && w & CMD_DONE == 0 ==> phase.left < old(phase.left)
      ensures r.hx == old(r.hx) && r.hashCnt == old(r.hashCnt) && r.preCnt == old(r.preCnt)
    {
      hide Compress, Precalc, SecondBlock, VarsHold, WindowHolds, PreHolds, Feeds;
      Gap();
      CalmClock(true, false, CMD, 0);
      w := DatO();
      CalmClock(true, false, CMD, 0);
    }

    /** `readl(&hash)` returns the words of the hash value in turn. */
    method ReadHash() returns (w: Word)
      requires Valid() && Idle(phase)
      modifies Repr()
      ensures Valid() && Idle(phase) && Held(phase) == Held(old(phase))
      ensures w == StateWords(Held(phase))[old(r.hashCnt)] && r.hashCnt == (old(r.hashCnt) + 1) % 8
    {
      hide Compress, Precalc, SecondBlock, VarsHold, WindowHolds, PreHolds, Feeds;
      Gap();
      CalmClock(true, false, HASH, 0);
      RestingOutput();
      w := DatO();
      CalmClock(true, false, HASH, 0);
    }

    /** `readl(&pre)` returns the values after rounds 1 to 3 in turn. */
    method ReadPre() returns (w: Word)
      requires Valid() && phase.Busy? && Idle(phase) && r.preCnt < 6
      modifies Repr()
      ensures Valid() && phase == old(phase)
      ensures w == Precalc(phase.chain, phase.words)[old(r.preCnt)] && r.preCnt == (old(r.preCnt) + 1) % 8
    {
      hide Compress, Precalc, SecondBlock, VarsHold, WindowHolds, PreHolds, Feeds;
      Gap();
      CalmClock(true, false, PRE, 0);
      w := DatO();
      CalmClock(true, false, PRE, 0);
    }
  }

  lemma CalmNext(r: Registers, stb: bool, we: bool, adr: Word, dat: Word, done: bool)
    requires r.hashCnt < 8 && r.preCnt < 8 && !r.init && !r.rst && (r.ack || !stb || !we)
    ensures !Clears(r, stb, we, adr, dat)
    ensures var n := Next(r, stb, we, adr, dat, done);
      !n.init && !n.rst && !n.dbl && !n.vld && n.hx == r.hx && n.done == (done || r.done)
  {
  }

  /** The first clock of a write cycle. */
  lemma StrobeNext(r: Registers, adr: Word, dat: Word, done: bool)
    requires r.hashCnt < 8 && r.preCnt < 8 && !r.init && !r.rst && !r.ack && !r.hashRdR && !r.preRdR
    requires adr == HI || adr == DIN || (adr == CMD && dat in {CMD_RST, CMD_INIT, CMD_DBL})
    ensures Clears(r, true, true, adr, dat) <==> adr == DIN || (adr == CMD && dat == CMD_DBL)
    ensures var n := Next(r, true, true, adr, dat, done);
      && n.ack && !n.hashRdR && !n.preRdR && n.hashCnt == r.hashCnt && n.preCnt == r.preCnt
      && n.init == (adr == CMD && dat != CMD_RST) && n.rst == (adr == CMD && dat == CMD_RST) && n.dbl == (adr == CMD && dat == CMD_DBL)
      && n.vld == (adr == DIN) && (adr == DIN ==> n.din == dat) && n.hx == (if adr == HI then ShiftHx(r.hx, dat) else r.hx)
      && n.done == (done || (r.done && adr != DIN && !n.dbl))
  {
  }

  /** The second. */
  lemma AckNext(r: Registers, adr: Word, dat: Word, done: bool)
    requires r.hashCnt < 8 && r.preCnt < 8 && r.ack && !r.hashRdR && !r.preRdR
    ensures !Clears(r, true, true, adr, dat)
    ensures var n := Next(r, true, true, adr, dat, done);
      && !n.ack && !n.hashRdR && !n.preRdR && !n.init && !n.rst && !n.dbl && !n.vld
      && n.hx == (if r.rst then INITIAL else r.hx) && n.done == (done || r.done)
      && n.hashCnt == (if r.init then 0 else r.hashCnt) && n.preCnt == (if r.init then 0 else r.preCnt)
  {
  }

  lemma DoneBit(r: Registers, stb: bool, we: bool, adr: Word, dat: Word, done: bool)
    requires r.hashCnt < 8 && r.preCnt < 8
    ensures Next(r, stb, we, adr, dat, done).done == (done || (r.done && !Clears(r, stb, we, adr, dat)))
  {
  }
}
