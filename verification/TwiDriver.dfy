/** The two-wire routines of twipwm.c: what a listener on the wires makes of whole transfers. */
module TwiDriver {
  import opened Options
  import opened Twi

  // Command words: enable and start, with the command in bits 6 to 4

  const START_WORD: Byte := 0x03
  const WRITE_WORD: Byte := 0x13
  const READ_WORD: Byte := 0x23
  const STOP_WORD: Byte := 0x33
  const REG_TEMP: Byte := 0x48

  // What a listener makes of a transfer

  /** Eight levels, most significant bit first, and the released line of the ninth pulse. */
  function Sent(b: Byte): (signs: seq<Sign>)
    ensures |signs| == 9
  {
    Levels(MsbFirst(b) + [true])
  }

  /** A byte taken in: the line is let go for eight pulses and pulled down for the ninth. */
  function Fetched(): (signs: seq<Sign>)
    ensures |signs| == 9
  {
    Levels(Acknowledge(9))
  }

  /** The pulse on which SDA is low, and its rise. */
  function Stopped(): seq<Sign> { [Level(false), Stop] }

  function Written(b0: Byte, b1: Byte, b2: Byte, b3: Byte): seq<Sign> {
    [Start] + Sent(b0) + Sent(b1) + Sent(b2) + Sent(b3) + Stopped()
  }

  function ReadBack(b0: Byte, b1: Byte, b2: Byte): seq<Sign> {
    [Start] + Sent(b0) + Sent(b1) + Stopped() + ([Start] + Sent(b2) + Fetched() + Fetched() + Stopped())
  }

  /** The first byte of a transfer when n clocks lie between its command and that of the start. */
  function First(b: Byte, n: nat): Byte { if n == LAST - 1 then ShiftIn(b, true) else b }

  lemma LevelsTell(a: seq<bool>, b: seq<bool>)
    requires Levels(a) == Levels(b)
    ensures a == b
  {
    assert |Levels(a)| == |Levels(b)|;
    forall i | 0 <= i < |a| ensures a[i] == b[i] {
      assert Levels(a)[i] == Level(a[i]) && Levels(b)[i] == Level(b[i]);
    }
  }

  lemma SentTell(a: Byte, b: Byte)
    ensures Sent(a) == Sent(b) <==> a == b
  {
    hide MsbFirst, Levels;
    if Sent(a) == Sent(b) {
      EightBits(a);
      EightBits(b);
      LevelsTell(MsbFirst(a) + [true], MsbFirst(b) + [true]);
      SameFront(MsbFirst(a), MsbFirst(b), true);
      BitsTell(a, b);
    }
  }

  /** A transfer is heard as it was meant if and only if its first command misses the clock at which the
      counter stands at 4003. */
  lemma WrittenExact(b0: Byte, b1: Byte, b2: Byte, b3: Byte, n: nat)
    ensures Written(First(b0, n), b1, b2, b3) == Written(b0, b1, b2, b3) <==> n != LAST - 1 || b0 == 255
  {
    hide Sent;
    var x, y := Written(First(b0, n), b1, b2, b3), Written(b0, b1, b2, b3);
    assert x[1..10] == Sent(First(b0, n)) && y[1..10] == Sent(b0);
    SentTell(First(b0, n), b0);
    OnesSurvive(b0);
  }

  lemma ReadBackExact(b0: Byte, b1: Byte, b2: Byte, n: nat, m: nat)
    ensures ReadBack(First(b0, n), b1, First(b2, m)) == ReadBack(b0, b1, b2) <==>
      (n != LAST - 1 || b0 == 255) && (m != LAST - 1 || b2 == 255)
  {
    hide Sent, Fetched;
    var x, y := ReadBack(First(b0, n), b1, First(b2, m)), ReadBack(b0, b1, b2);
    assert x[1..10] == Sent(First(b0, n)) && y[1..10] == Sent(b0);
    assert x[22..31] == Sent(First(b2, m)) && y[22..31] == Sent(b2);
    SentTell(First(b0, n), b0);
    SentTell(First(b2, m), b2);
    OnesSurvive(b0);
    OnesSurvive(b2);
  }

  // Between commands

  /** Both lines are high: after reset, or after a stop that is done. */
  predicate Free(r: Registers) {
    && Sized(r) && r.scl && r.sda && !r.init
    && (if r.en then r.cmd == CMD_STOP && (r.cnt == 0 || r.cnt > TWI_DONE) else r.cnt == 0)
  }

  /** Ready for a byte: c clocks into a start that is done or, for c = 0, after a byte. */
  predicate Ready(r: Registers, c: nat) {
    && Sized(r) && r.done
    && if c == 0 then Ended(r, CMD_WR) || Ended(r, CMD_RD) else c > TWI_DONE && Started(r, c, true, true)
  }

  function Later(c: nat, n: nat): nat { if c == 0 then 0 else c + n }

  lemma FreeStep(r: Registers, i: Input)
    requires Free(r) && !Writes(i, I2CR)
    ensures Free(Next(r, i)) && Signs(r, Next(r, i)) == []
  {
    hide Bit, ShiftIn;
  }

  lemma ReadyStep(r: Registers, i: Input, c: nat)
    requires Ready(r, c) && !Writes(i, I2CR)
    ensures Ready(Next(r, i), Later(c, 1)) && Signs(r, Next(r, i)) == []
    ensures Next(r, i).wd == if Writes(i, I2WD) then Data(i) else r.wd
  {
    hide Bit, ShiftIn;
  }

  lemma {:induction false} StaysFree(r: Registers, ins: seq<Input>)
    requires Free(r) && NoCommand(ins)
    ensures Free(Run(r, ins)) && Told(r, ins) == []
    decreases |ins|
  {
    hide Next, Free, Signs, Writes;
    assert Sized(r) by { FreeSized(r); }
    if ins != [] {
      var n := |ins| - 1;
      StaysFree(r, ins[..n]);
      FreeStep(Run(r, ins[..n]), ins[n]);
    }
  }

  lemma FreeSized(r: Registers)
    requires Free(r)
    ensures Sized(r)
  {
  }

  lemma {:induction false} StaysReady(r: Registers, ins: seq<Input>, c: nat)
    requires Sized(r) && Ready(r, c) && NoCommand(ins)
    ensures Ready(Run(r, ins), Later(c, |ins|)) && Told(r, ins) == []
    decreases |ins|
  {
    hide Next, Ready, Signs, Writes;
    if ins != [] {
      var n := |ins| - 1;
      StaysReady(r, ins[..n], c);
      ReadyStep(Run(r, ins[..n]), ins[n], Later(c, n));
    }
  }

  lemma {:induction false} DataStays(r: Registers, ins: seq<Input>, c: nat)
    requires Sized(r) && Ready(r, c) && Untouched(ins)
    ensures Run(r, ins).wd == r.wd
    decreases |ins|
  {
    hide Next, Ready, Signs;
    if ins != [] {
      var n := |ins| - 1;
      DataStays(r, ins[..n], c);
      StaysReady(r, ins[..n], c);
      ReadyStep(Run(r, ins[..n]), ins[n], Later(c, n));
    }
  }

  // Commands

  /** A register is written after a while. */
  predicate Access(ins: seq<Input>, adr: nat, data: Byte) {
    ins != [] && Untouched(ins[..|ins| - 1]) && ins[|ins| - 1].write == Some(Write(adr, data))
  }

  lemma OneMore(r: Registers, ins: seq<Input>)
    requires Sized(r) && ins != []
    ensures var t := Run(r, ins[..|ins| - 1]);
      Run(r, ins) == Next(t, ins[|ins| - 1]) && Told(r, ins) == Told(r, ins[..|ins| - 1]) + Signs(t, Run(r, ins))
  {
    hide Next, Signs;
  }

  /** The data register is loaded. */
  lemma DataTaken(r: Registers, ins: seq<Input>, c: nat, b: Byte)
    requires Sized(r) && Ready(r, c) && Access(ins, I2WD, b)
    ensures Ready(Run(r, ins), Later(c, |ins|)) && Run(r, ins).wd == b && Told(r, ins) == []
  {
    hide Next, Ready, Signs;
    var n := |ins| - 1;
    StaysReady(r, ins, c);
    StaysReady(r, ins[..n], c);
    OneMore(r, ins);
    ReadyStep(Run(r, ins[..n]), ins[n], Later(c, n));
  }

  predicate IsWord(word: Byte, cmd: Byte) {
    || (word == WRITE_WORD && cmd == CMD_WR) || (word == READ_WORD && cmd == CMD_RD)
    || (word == STOP_WORD && cmd == CMD_STOP)
  }

  lemma CommandStep(r: Registers, i: Input, c: nat, word: Byte, cmd: Byte)
    requires Ready(r, c) && IsWord(word, cmd) && i.write == Some(Write(I2CR, word))
    ensures var t := Next(r, i);
      Starting(t, cmd) && t.wd == r.wd && Signs(r, t) == [] && t.cnt == (if c == 0 || c + 1 >= 4096 then 0 else c + 1)
  {
    hide ShiftIn;
  }

  /** A command begins. */
  lemma CommandRuns(r: Registers, ins: seq<Input>, c: nat, word: Byte, cmd: Byte)
    requires Sized(r) && Ready(r, c) && Access(ins, I2CR, word) && IsWord(word, cmd)
    ensures var t := Run(r, ins);
      && Starting(t, cmd) && t.wd == r.wd && Told(r, ins) == [] && t.cnt != SDA_SET
      && (t.cnt == LAST <==> Later(c, |ins|) == LAST) && (c == 0 ==> t.cnt == 0)
  {
    hide Next, Ready, Signs, Starting;
    var n := |ins| - 1;
    StaysReady(r, ins[..n], c);
    DataStays(r, ins[..n], c);
    OneMore(r, ins);
    CommandStep(Run(r, ins[..n]), ins[n], Later(c, n), word, cmd);
    ReadyLate(r, c);
  }

  lemma ReadyLate(r: Registers, c: nat)
    requires Ready(r, c)
    ensures c == 0 || c > TWI_DONE
  {
  }

  lemma StartStepFree(r: Registers, i: Input)
    requires Free(r) && i.write == Some(Write(I2CR, START_WORD))
    ensures var t := Next(r, i);
      && Sized(t) && t.en && t.init && t.cmd == CMD_START && t.scl && t.sda && Signs(r, t) == []
      && t.cnt != START_SDA && t.cnt != START_SCL && !t.done
  {
    hide ShiftIn;
  }

  /** A start condition from free lines. */
  lemma StartTold(r: Registers, ins: seq<Input>, more: seq<Input>)
    requires Sized(r) && Free(r) && Access(ins, I2CR, START_WORD) && Untouched(more)
    ensures var t := Run(r, ins);
      && !t.done && Told(r, ins) == []
      && (more != [] ==> (Run(t, more).done <==> |more| > TWI_DONE))
      && (|more| > TWI_DONE ==> Ready(Run(t, more), |more|) && Told(t, more) == [Start])
  {
    hide Next, Free, Signs, Bit;
    var n := |ins| - 1;
    StaysFree(r, ins[..n]);
    OneMore(r, ins);
    StartStepFree(Run(r, ins[..n]), ins[n]);
    if more != [] {
      StartRuns(Run(r, ins), more);
    }
  }

  // A byte each way

  lemma ByteTold(r: Registers, ins: seq<Input>)
    requires Starting(r, CMD_WR) && Untouched(ins) && r.cnt != SDA_SET && ins != []
    ensures Run(r, ins).done <==> |ins| >= 9 * PERIOD + 2
    ensures |ins| >= 9 * PERIOD + 2 ==> Ready(Run(r, ins), 0) && Told(r, ins) == Sent(Loaded(r))
  {
    hide Next, ShiftIn, Bit, MsbFirst, BitsOut, Heard, Stable, Shifted, BitOut, Levels, Ended;
    WriteIsOrderly(r, ins);
    if |ins| >= 9 * PERIOD + 2 {
      ByteHeard(r, ins);
      WriteRuns(r, ins);
      NineBits(Loaded(r));
      StableTold(r, ins);
    }
  }

  lemma FetchTold(r: Registers, ins: seq<Input>)
    requires Starting(r, CMD_RD) && Untouched(ins) && r.cnt != SDA_SET && ins != []
    ensures Run(r, ins).done <==> |ins| >= 9 * PERIOD + 2
    ensures |ins| >= 9 * PERIOD + 2 ==> Ready(Run(r, ins), 0) && Told(r, ins) == Fetched()
  {
    hide Next, Bit, Heard, Stable, Levels, Taken;
    var extra, heard := ReadRuns(r, ins, |ins|);
    assert ins[..|ins|] == ins && extra + heard == heard;
    if |ins| >= 9 * PERIOD + 2 {
      StableTold(r, ins);
    }
  }

  // A stop condition

  /** c clocks into a stop: SCL rises, then SDA, then the command is done. */
  predicate Stopping(r: Registers, c: nat) {
    && r.en && !r.init && r.cmd == CMD_STOP && r.cnt == (if c < 4096 then c else 0)
    && (r.scl <==> c > SDA_SET) && (r.sda <==> c > STOP_SCL + SDA_SET) && (r.done <==> c > TWI_DONE)
  }

  function StopSigns(c: nat): seq<Sign> {
    (if c > SDA_SET then [Level(false)] else []) + (if c > STOP_SCL + SDA_SET then [Stop] else [])
  }

  lemma StopStep(r: Registers, i: Input, c: nat)
    requires Sized(r) && c >= 1 && Stopping(r, c) && !Writes(i, I2CR)
    ensures Stopping(Next(r, i), c + 1) && StopSigns(c + 1) == StopSigns(c) + Signs(r, Next(r, i))
  {
    hide Bit, ShiftIn;
  }

  lemma FirstStop(r: Registers, i: Input)
    requires Starting(r, CMD_STOP) && r.cnt == 0 && !Writes(i, I2CR)
    ensures Stopping(Next(r, i), 1) && Signs(r, Next(r, i)) == []
  {
    hide Bit, ShiftIn;
  }

  lemma {:induction false} StopRuns(r: Registers, ins: seq<Input>)
    requires Starting(r, CMD_STOP) && r.cnt == 0 && ins != [] && NoCommand(ins)
    ensures Stopping(Run(r, ins), |ins|) && Told(r, ins) == StopSigns(|ins|)
    decreases |ins|
  {
    hide Next, Signs, Bit, Writes;
    if |ins| == 1 {
      RunOne(r, ins);
      FirstStop(r, ins[0]);
    } else {
      var n := |ins| - 1;
      StopRuns(r, ins[..n]);
      StopStep(Run(r, ins[..n]), ins[n], n);
    }
  }

  /** A stop: SCL rises after 1401 clocks, SDA after 1452, and it is done after 2603. */
  lemma StopTimes(r: Registers, ins: seq<Input>)
    requires Starting(r, CMD_STOP) && r.cnt == 0 && ins != [] && NoCommand(ins)
    ensures (Run(r, ins).scl <==> |ins| > 1401) && (Run(r, ins).sda <==> |ins| > 1452) && (Run(r, ins).done <==> |ins| > 2603)
  {
    hide Next, Signs;
    StopRuns(r, ins);
  }

  lemma StopTold(r: Registers, ins: seq<Input>)
    requires Starting(r, CMD_STOP) && r.cnt == 0 && ins != [] && Untouched(ins)
    ensures Run(r, ins).done <==> |ins| > TWI_DONE
    ensures |ins| > TWI_DONE ==> Free(Run(r, ins)) && Told(r, ins) == Stopped()
  {
    hide Next, Signs;
    StopRuns(r, ins);
  }

  // The bus

  /** The core was clocked through these inputs. */
  twostate predicate Ran(core: Core, ins: seq<Input>)
    requires old(Sized(core.Regs()))
    reads core
  {
    && core.Regs() == Run(old(core.Regs()), ins) && core.past == old(core.past) + ins
    && core.told == old(core.told) + Told(old(core.Regs()), ins)
  }

  /** After reset the lines are free. */
  method PowerOn() returns (core: Core)
    ensures fresh(core) && Sized(core.Regs()) && Free(core.Regs()) && core.past == [] && core.told == []
  {
    core := new Core();
  }

  /** Time passes; the line is as the other side holds it. */
  method Pass(core: Core, clocks: nat) returns (ghost ins: seq<Input>)
    requires Sized(core.Regs())
    modifies core
    ensures Sized(core.Regs()) && |ins| == clocks && Untouched(ins) && Ran(core, ins)
  {
    hide Next, Signs;
    ins := [];
    for k := 0 to clocks
      invariant Sized(core.Regs()) && |ins| == k && Untouched(ins) && Ran(core, ins)
    {
      var level: bool := *;
      var i := Input(None, level);
      ghost var r := core.Regs();
      core.Clock(i);
      assert (ins + [i])[..k] == ins;
      ins := ins + [i];
    }
  }

  /** `writel`: the write reaches the core after a while. */
  method SetReg(core: Core, adr: nat, data: Byte) returns (ghost ins: seq<Input>)
    requires Sized(core.Regs())
    modifies core
    ensures Sized(core.Regs()) && Access(ins, adr, data) && Ran(core, ins)
  {
    hide Next, Signs;
    var gap: nat :| true;
    ins := Pass(core, gap);
    var level: bool := *;
    var i := Input(Some(Write(adr, data)), level);
    core.Clock(i);
    assert (ins + [i])[..gap] == ins;
    ins := ins + [i];
  }

  // What the program wrote, and when

  /** The register writes, in order. */
  function WritesIn(ins: seq<Input>): seq<Write> {
    if ins == [] then [] else WritesIn(ins[..|ins| - 1]) + Listed(ins[|ins| - 1].write)
  }

  lemma {:induction false} WritesAppend(a: seq<Input>, b: seq<Input>)
    ensures WritesIn(a + b) == WritesIn(a) + WritesIn(b)
    decreases |b|
  {
    if b == [] {
      assert a + b == a;
    } else {
      var n := |b| - 1;
      var front, last := b[..n], b[n];
      assert b == front + [last] && a + b == a + front + [last];
      hide *;
      WritesAppend(a, front);
      WritesMore(a + front, last);
      WritesMore(front, last);
    }
  }

  lemma WritesMore(ins: seq<Input>, i: Input)
    ensures WritesIn(ins + [i]) == WritesIn(ins) + Listed(i.write)
  {
    assert (ins + [i])[..|ins|] == ins;
  }

  lemma {:induction false} NoWrites(ins: seq<Input>)
    requires Untouched(ins)
    ensures WritesIn(ins) == []
    decreases |ins|
  {
    if ins != [] {
      NoWrites(ins[..|ins| - 1]);
    }
  }

  lemma OneWrite(ins: seq<Input>, adr: nat, data: Byte)
    requires Access(ins, adr, data)
    ensures WritesIn(ins) == [Write(adr, data)]
  {
    NoWrites(ins[..|ins| - 1]);
  }

  /** At clock `at` the command register was written. */
  predicate Commanded(past: seq<Input>, at: nat, word: Byte) {
    at < |past| && past[at].write == Some(Write(I2CR, word))
  }

  predicate Prefix<T(==)>(a: seq<T>, b: seq<T>) { |a| <= |b| && b[..|a|] == a }

  lemma CommandedEarlier(past: seq<Input>, more: seq<Input>, at: nat, word: Byte)
    requires Commanded(past, at, word) && Prefix(past, more)
    ensures Commanded(more, at, word)
  {
    assert more[at] == more[..|past|][at];
  }

  /** A command after quiet clocks or one more write, and quiet clocks after it. */
  lemma CommandLast(past: seq<Input>, front: seq<Input>, ins: seq<Input>, more: seq<Input>, word: Byte)
    requires Access(ins, I2CR, word) && Untouched(more)
    ensures var all := past + front + ins + more;
      && Commanded(all, |past| + |front| + |ins| - 1, word) && Prefix(past, all)
      && WritesIn(all) == WritesIn(past) + WritesIn(front) + [Write(I2CR, word)]
  {
    hide WritesIn, Untouched;
    CommandWrites(past, front, ins, more, word);
    assert Prefix(past, past + front) && Prefix(past + front, past + front + ins + more);
    PrefixTrans(past, past + front, past + front + ins + more);
  }

  lemma CommandWrites(past: seq<Input>, front: seq<Input>, ins: seq<Input>, more: seq<Input>, word: Byte)
    requires Access(ins, I2CR, word) && Untouched(more)
    ensures WritesIn(past + front + ins + more) == WritesIn(past) + WritesIn(front) + [Write(I2CR, word)]
  {
    hide *;
    OneWrite(ins, I2CR, word);
    NoWrites(more);
    WritesAppend(past + front + ins, more);
    WritesAppend(past + front, ins);
    WritesAppend(past, front);
    var done := WritesIn(past) + WritesIn(front) + [Write(I2CR, word)];
    assert done + [] == done;
  }

  /** `done` shows after so many clocks at the latest. */
  ghost predicate DoneBy(r: Registers, n: nat)
    requires Sized(r)
  {
    forall ins :: Untouched(ins) && |ins| >= n ==> Run(r, ins).done
  }

  /** Polling the status: each read takes at least a clock. */
  method AwaitDone(core: Core, ghost n: nat) returns (ghost ins: seq<Input>)
    requires Sized(core.Regs()) && DoneBy(core.Regs(), n)
    modifies core
    ensures Sized(core.Regs()) && ins != [] && Untouched(ins) && Ran(core, ins) && core.done
  {
    hide Run, Told;
    ghost var r := core.Regs();
    NothingRun(r);
    ins := [];
    var seen := false;
    while !seen
      invariant Sized(core.Regs()) && Untouched(ins) && Ran(core, ins) && (seen ==> ins != [] && core.done)
      invariant !seen ==> ins == [] || |ins| < n
      decreases n + 1 - |ins|, !seen
    {
      var gap: nat :| true;
      ghost var more := Pass(core, gap + 1);
      seen := core.done;
      RunsAppend(r, ins, more);
      ins := ins + more;
      LateDone(r, ins, n);
    }
  }

  lemma NothingRun(r: Registers)
    requires Sized(r)
    ensures Run(r, []) == r && Told(r, []) == []
  {
  }

  lemma LateDone(r: Registers, ins: seq<Input>, n: nat)
    requires Sized(r) && DoneBy(r, n) && Untouched(ins)
    ensures |ins| >= n ==> Run(r, ins).done
  {
    hide Run;
  }

  // The routines

  lemma DoneByByte(r: Registers)
    requires Sized(r) && (Starting(r, CMD_WR) || Starting(r, CMD_RD))
    requires r.cnt != SDA_SET
    ensures DoneBy(r, 9 * PERIOD + 2)
  {
    hide Run, Starting;
    forall ins | Untouched(ins) && |ins| >= 9 * PERIOD + 2 ensures Run(r, ins).done {
      if Starting(r, CMD_WR) { ByteTold(r, ins); } else { FetchTold(r, ins); }
    }
  }

  lemma DoneByStop(r: Registers)
    requires Sized(r) && Starting(r, CMD_STOP) && r.cnt == 0
    ensures DoneBy(r, TWI_DONE + 1)
  {
    hide Run, Starting;
    forall ins | Untouched(ins) && |ins| >= TWI_DONE + 1 ensures Run(r, ins).done {
      StopTold(r, ins);
    }
  }

  lemma DoneByStart(r: Registers, ins: seq<Input>)
    requires Sized(r) && Free(r) && Access(ins, I2CR, START_WORD)
    ensures DoneBy(Run(r, ins), TWI_DONE + 1)
  {
    hide Run, Free;
    var t := Run(r, ins);
    forall more | Untouched(more) && |more| >= TWI_DONE + 1 ensures Run(t, more).done {
      StartTold(r, ins, more);
    }
  }

  /** `twi_start`: c clocks after its command the start condition is out. */
  method TwiStart(core: Core) returns (ghost c: nat)
    requires Sized(core.Regs()) && Free(core.Regs())
    modifies core
    ensures Sized(core.Regs()) && c > 0 && Ready(core.Regs(), c)
    ensures core.told == old(core.told) + [Start] && Prefix(old(core.past), core.past)
    ensures |old(core.past)| + c < |core.past| && Commanded(core.past, |core.past| - c - 1, START_WORD)
    ensures WritesIn(core.past) == WritesIn(old(core.past)) + StartWrites()
  {
    hide Run, Told, Free, Ready, WritesIn, Commanded;
    ghost var r, past := core.Regs(), core.past;
    ghost var ins := SetReg(core, I2CR, START_WORD);
    DoneByStart(r, ins);
    ghost var more := AwaitDone(core, TWI_DONE + 1);
    StartTold(r, ins, more);
    c := |more|;
    CommandLast(past, [], ins, more, START_WORD);
    NoWrites([]);
    assert past + [] == past && WritesIn(past) + [] == WritesIn(past);
  }

  /** `twi_write`: the byte is heard, but for the first bit lost if 4002 clocks lie between the command and
      that of the start; the command is the n-th clock of the call. */
  method TwiWrite(core: Core, value: Byte, ghost c: nat) returns (ghost n: nat)
    requires Sized(core.Regs()) && Ready(core.Regs(), c)
    modifies core
    ensures Sized(core.Regs()) && Ready(core.Regs(), 0)
    ensures core.told == old(core.told) + Sent(if c == 0 then value else First(value, c + n - 1))
    ensures Prefix(old(core.past), core.past) && n >= 1 && Commanded(core.past, |old(core.past)| + n - 1, WRITE_WORD)
    ensures WritesIn(core.past) == WritesIn(old(core.past)) + ByteWrites(value)
  {
    hide Run, Told, Ready, Sent, Next, ShiftIn, Starting, WritesIn, Commanded;
    ghost var r, past := core.Regs(), core.past;
    ghost var a := SetReg(core, I2WD, value);
    DataTaken(r, a, c, value);
    ghost var t := core.Regs();
    ghost var b := SetReg(core, I2CR, WRITE_WORD);
    CommandRuns(t, b, Later(c, |a|), WRITE_WORD, CMD_WR);
    n := |a| + |b|;
    ghost var u := core.Regs();
    DoneByByte(u);
    ghost var more := AwaitDone(core, 9 * PERIOD + 2);
    ByteTold(u, more);
    OneWrite(a, I2WD, value);
    CommandLast(past, a, b, more, WRITE_WORD);
    assert WritesIn(past) + [Write(I2WD, value)] + [Write(I2CR, WRITE_WORD)]
      == WritesIn(past) + [Write(I2WD, value), Write(I2CR, WRITE_WORD)];
  }

  /** `twi_read`: the byte is the levels of SDA at the eight sampling times after its command; `at` is
      the clock behind the command. */
  method TwiRead(core: Core) returns (value: Byte, ghost at: nat)
    requires Sized(core.Regs()) && Ready(core.Regs(), 0)
    modifies core
    ensures Sized(core.Regs()) && Ready(core.Regs(), 0)
    ensures core.told == old(core.told) + Fetched()
    ensures Prefix(old(core.past), core.past) && |old(core.past)| < at && Commanded(core.past, at - 1, READ_WORD)
    ensures Sampled(value, core.past, at)
    ensures WritesIn(core.past) == WritesIn(old(core.past)) + ReadWrites()
  {
    hide Run, Told, Ready, Fetched, Next, ShiftIn, Starting, Sampled, Bit, WritesIn, Commanded;
    ghost var r, past := core.Regs(), core.past;
    ghost var b := SetReg(core, I2CR, READ_WORD);
    CommandRuns(r, b, 0, READ_WORD, CMD_RD);
    ghost var u := core.Regs();
    DoneByByte(u);
    at := |core.past|;
    ghost var more := AwaitDone(core, 9 * PERIOD + 2);
    FetchTold(u, more);
    value := core.rd;
    ByteSampled(u, more, core.past, at);
    CommandLast(past, [], b, more, READ_WORD);
    NoWrites([]);
    assert past + [] == past && WritesIn(past) + [] == WritesIn(past);
  }

  /** Bit 7 - k of the byte is the level of the line at the k-th sampling time. */
  ghost predicate Sampled(b: Byte, past: seq<Input>, at: nat) {
    at + SampleTime(7) < |past| && forall k: nat :: k < 8 ==> (Bit(b, 7 - k) <==> past[at + SampleTime(k)].line)
  }

  lemma ByteSampled(r: Registers, ins: seq<Input>, past: seq<Input>, at: nat)
    requires Starting(r, CMD_RD) && Untouched(ins) && |ins| >= 9 * PERIOD + 2
    requires at + |ins| == |past| && past[at..] == ins
    ensures Sampled(Run(r, ins).rd, past, at)
  {
    hide Run, Bit, Heard;
    ByteRead(r, ins);
    forall k: nat | k < 8 ensures Bit(Run(r, ins).rd, 7 - k) <==> past[at + SampleTime(k)].line {
      assert past[at + SampleTime(k)] == past[at..][SampleTime(k)];
    }
  }

  /** `twi_stop`. */
  method TwiStop(core: Core)
    requires Sized(core.Regs()) && Ready(core.Regs(), 0)
    modifies core
    ensures Sized(core.Regs()) && Free(core.Regs())
    ensures core.told == old(core.told) + Stopped() && Prefix(old(core.past), core.past)
    ensures WritesIn(core.past) == WritesIn(old(core.past)) + StopWrites()
  {
    hide Run, Told, Ready, Next, Free, Starting, WritesIn, Commanded;
    ghost var r, past := core.Regs(), core.past;
    ghost var b := SetReg(core, I2CR, STOP_WORD);
    CommandRuns(r, b, 0, STOP_WORD, CMD_STOP);
    ghost var u := core.Regs();
    DoneByStop(u);
    ghost var more := AwaitDone(core, TWI_DONE + 1);
    StopTold(u, more);
    CommandLast(past, [], b, more, STOP_WORD);
    NoWrites([]);
    assert past + [] == past && WritesIn(past) + [] == WritesIn(past);
  }

  // The program's writes in a transfer: commands to register 0, data to register 4

  function StartWrites(): seq<Write> { [Write(0, 0x03)] }

  function ByteWrites(b: Byte): seq<Write> { [Write(4, b), Write(0, 0x13)] }

  function ReadWrites(): seq<Write> { [Write(0, 0x23)] }

  function StopWrites(): seq<Write> { [Write(0, 0x33)] }

  function Low(buf: bv16): Byte { (buf & 0xff) as Byte }

  function High(buf: bv16): Byte { (buf >> 8) as Byte }

  lemma WrittenTold(was: seq<Sign>, b0: Byte, b1: Byte, b2: Byte, b3: Byte)
    ensures was + [Start] + Sent(b0) + Sent(b1) + Sent(b2) + Sent(b3) + Stopped() == was + Written(b0, b1, b2, b3)
  {
    hide Sent;
  }

  lemma ReadBackTold(was: seq<Sign>, b0: Byte, b1: Byte, b2: Byte)
    ensures was + [Start] + Sent(b0) + Sent(b1) + Stopped() + [Start] + Sent(b2) + Fetched() + Fetched() + Stopped()
      == was + ReadBack(b0, b1, b2)
  {
    hide Sent, Fetched;
  }

  /** The start at clock `at` and the first write command n + 1 clocks after it. */
  predicate Opened(past: seq<Input>, at: nat, n: nat) {
    Commanded(past, at, START_WORD) && Commanded(past, at + 1 + n, WRITE_WORD)
  }

  lemma OpenedEarlier(past: seq<Input>, more: seq<Input>, at: nat, n: nat)
    requires Opened(past, at, n) && Prefix(past, more)
    ensures Opened(more, at, n)
  {
    CommandedEarlier(past, more, at, START_WORD);
    CommandedEarlier(past, more, at + 1 + n, WRITE_WORD);
  }

  lemma PrefixTrans<T>(a: seq<T>, b: seq<T>, c: seq<T>)
    requires Prefix(a, b) && Prefix(b, c)
    ensures Prefix(a, c)
  {
    assert c[..|a|] == c[..|b|][..|a|];
  }

  /** A start and the first byte: at clock `at` the start command, n + 1 clocks later the write command. */
  method TwiOpen(core: Core, value: Byte) returns (ghost at: nat, ghost n: nat)
    requires Sized(core.Regs()) && Free(core.Regs())
    modifies core
    ensures Sized(core.Regs()) && Ready(core.Regs(), 0) && Prefix(old(core.past), core.past)
    ensures core.told == old(core.told) + [Start] + Sent(First(value, n))
    ensures |old(core.past)| <= at && Opened(core.past, at, n)
    ensures WritesIn(core.past) == WritesIn(old(core.past)) + StartWrites() + ByteWrites(value)
  {
    hide Free, Ready, Sent, First, Sized, WritesIn, Commanded, StartWrites, ByteWrites;
    ghost var was := core.past;
    ghost var c := TwiStart(core);
    ghost var past := core.past;
    at := |past| - c - 1;
    ghost var gap := TwiWrite(core, value, c);
    n := c + gap - 1;
    CommandedEarlier(past, core.past, at, START_WORD);
    PrefixTrans(was, past, core.past);
  }

  function TransferWrites(b0: Byte, b1: Byte, b2: Byte, b3: Byte): seq<Write> {
    StartWrites() + ByteWrites(b0) + ByteWrites(b1) + ByteWrites(b2) + ByteWrites(b3) + StopWrites()
  }

  /** Two more bytes. */
  method TwiTwoBytes(core: Core, x: Byte, y: Byte)
    requires Sized(core.Regs()) && Ready(core.Regs(), 0)
    modifies core
    ensures Sized(core.Regs()) && Ready(core.Regs(), 0) && Prefix(old(core.past), core.past)
    ensures core.told == old(core.told) + Sent(x) + Sent(y)
    ensures WritesIn(core.past) == WritesIn(old(core.past)) + ByteWrites(x) + ByteWrites(y)
  {
    hide Free, Ready, Sent, Sized, WritesIn, Commanded, ByteWrites;
    ghost var was := core.past;
    ghost var n := TwiWrite(core, x, 0);
    ghost var past := core.past;
    n := TwiWrite(core, y, 0);
    PrefixTrans(was, past, core.past);
  }

  /** `twi_write_2byte`: a listener hears the address, a zero and the two bytes, low one first, between a
      start and a stop; the start is commanded at clock `at` and the first byte n + 1 clocks later. */
  method TwiWrite2Byte(core: Core, buf: bv16, addr: Byte) returns (ghost at: nat, ghost n: nat)
    requires Sized(core.Regs()) && Free(core.Regs())
    modifies core
    ensures Sized(core.Regs()) && Free(core.Regs())
    ensures core.told == old(core.told) + Written(First(addr << 1, n), 0, Low(buf), High(buf))
    ensures |old(core.past)| <= at && Opened(core.past, at, n)
    ensures WritesIn(core.past) == WritesIn(old(core.past)) + TransferWrites(addr << 1, 0, Low(buf), High(buf))
  {
    hide Free, Ready, Sent, First, Low, High, Written, Sized, WritesIn, Opened, StartWrites, ByteWrites, StopWrites, TransferWrites, Commanded;
    ghost var was, made := core.told, WritesIn(core.past);
    at, n := TwiOpen(core, addr << 1);
    ghost var past := core.past;
    ghost var rest := TwiWrite(core, 0, 0);
    ghost var mid := core.past;
    TwiTwoBytes(core, Low(buf), High(buf));
    ghost var last := core.past;
    TwiStop(core);
    PrefixTrans(past, mid, last);
    PrefixTrans(past, last, core.past);
    OpenedEarlier(past, core.past, at, n);
    WrittenTold(was, First(addr << 1, n), 0, Low(buf), High(buf));
    TransferMade(made, addr << 1, 0, Low(buf), High(buf));
  }

  lemma TransferMade(made: seq<Write>, b0: Byte, b1: Byte, b2: Byte, b3: Byte)
    ensures made + StartWrites() + ByteWrites(b0) + ByteWrites(b1) + ByteWrites(b2) + ByteWrites(b3) + StopWrites()
      == made + TransferWrites(b0, b1, b2, b3)
  {
    hide StartWrites, ByteWrites, StopWrites;
  }

  /** The two reads of `twi_read_2byte`. */
  method TwiReadPair(core: Core) returns (value: bv16, ghost at: nat, ghost next: nat)
    requires Sized(core.Regs()) && Ready(core.Regs(), 0)
    modifies core
    ensures Sized(core.Regs()) && Ready(core.Regs(), 0) && Prefix(old(core.past), core.past)
    ensures core.told == old(core.told) + Fetched() + Fetched() && |old(core.past)| < at < next
    ensures Fetches(High(value), core.past, at) && Fetches(Low(value), core.past, next)
    ensures WritesIn(core.past) == WritesIn(old(core.past)) + ReadWrites() + ReadWrites()
  {
    hide Ready, Low, High, Fetched, Sampled, Sized, WritesIn, Commanded, ReadWrites;
    ghost var was := core.past;
    var first, second: Byte;
    first, at := TwiRead(core);
    ghost var seen := core.past;
    second, next := TwiRead(core);
    value := ((first as bv16) << 8) | (second as bv16);
    Joined(first, second);
    SampledBounds(first, seen, at);
    FetchesEarlier(first, seen, core.past, at);
    PrefixTrans(was, seen, core.past);
  }

  /** The byte is what the line was at the sampling times after the read command at clock at - 1. */
  ghost predicate Fetches(b: Byte, past: seq<Input>, at: nat) {
    at >= 1 && Commanded(past, at - 1, READ_WORD) && Sampled(b, past, at)
  }

  lemma SampledBounds(b: Byte, past: seq<Input>, at: nat)
    requires Sampled(b, past, at)
    ensures at + SampleTime(7) < |past|
  {
  }

  lemma FetchesEarlier(b: Byte, past: seq<Input>, more: seq<Input>, at: nat)
    requires Fetches(b, past, at) && Prefix(past, more)
    ensures Fetches(b, more, at)
  {
    hide Sampled;
    CommandedEarlier(past, more, at - 1, READ_WORD);
    SampledEarlier(b, past, more, at);
  }

  function SelectWrites(addr: Byte): seq<Write> { StartWrites() + ByteWrites(addr << 1) + ByteWrites(0) + StopWrites() }

  /** The first half of `twi_read_2byte`: the address and a zero. */
  method TwiSelect(core: Core, addr: Byte) returns (ghost at: nat, ghost n: nat)
    requires Sized(core.Regs()) && Free(core.Regs())
    modifies core
    ensures Sized(core.Regs()) && Free(core.Regs()) && Prefix(old(core.past), core.past)
    ensures core.told == old(core.told) + [Start] + Sent(First(addr << 1, n)) + Sent(0) + Stopped()
    ensures |old(core.past)| <= at && Opened(core.past, at, n)
    ensures WritesIn(core.past) == WritesIn(old(core.past)) + SelectWrites(addr)
  {
    hide Free, Ready, Sent, First, Sized, WritesIn, Opened, StartWrites, ByteWrites, StopWrites, Commanded;
    ghost var was := core.past;
    at, n := TwiOpen(core, addr << 1);
    ghost var past := core.past;
    ghost var rest := TwiWrite(core, 0, 0);
    ghost var mid := core.past;
    TwiStop(core);
    PrefixTrans(past, mid, core.past);
    PrefixTrans(was, past, core.past);
    OpenedEarlier(past, core.past, at, n);
  }

  function ReadBackWrites(addr: Byte): seq<Write> {
    SelectWrites(addr) + StartWrites() + ByteWrites((addr << 1) | 1) + ReadWrites() + ReadWrites() + StopWrites()
  }

  /** When the parts of a read are commanded: the two starts, their first bytes, the two reads. */
  datatype ReadTimes = ReadTimes(at: nat, n: nat, again: nat, m: nat, first: nat, second: nat)

  /** In that order, and the word is what was sampled. */
  ghost predicate ReadsAt(past: seq<Input>, from: nat, t: ReadTimes, value: bv16) {
    && from <= t.at && Opened(past, t.at, t.n) && t.at + 1 + t.n < t.again && Opened(past, t.again, t.m)
    && t.again + 1 + t.m < t.first < t.second && Fetches(High(value), past, t.first) && Fetches(Low(value), past, t.second)
  }

  /** `twi_read_2byte`: the address and a zero, then the address again and two bytes taken in, the first
      one into the high byte. */
  method TwiRead2Byte(core: Core, addr: Byte) returns (value: bv16, ghost t: ReadTimes)
    requires Sized(core.Regs()) && Free(core.Regs())
    modifies core
    ensures Sized(core.Regs()) && Free(core.Regs())
    ensures core.told == old(core.told) + ReadBack(First(addr << 1, t.n), 0, First((addr << 1) | 1, t.m))
    ensures ReadsAt(core.past, |old(core.past)|, t, value)
    ensures WritesIn(core.past) == WritesIn(old(core.past)) + ReadBackWrites(addr)
  {
    hide Free, Ready, Sent, First, Low, High, Fetched, ReadBack, Sized, WritesIn, Opened, StartWrites, ByteWrites, StopWrites, ReadWrites,
      SelectWrites, ReadBackWrites, Fetches, Commanded;
    ghost var was, made := core.told, WritesIn(core.past);
    ghost var at, n := TwiSelect(core, addr);
    ghost var p1 := core.past;
    ghost var again, m := TwiOpen(core, (addr << 1) | 1);
    ghost var p2 := core.past;
    ghost var first, second;
    value, first, second := TwiReadPair(core);
    ghost var p3 := core.past;
    TwiStop(core);
    t := ReadTimes(at, n, again, m, first, second);
    OpenedBounds(p1, at, n);
    OpenedBounds(p2, again, m);
    PrefixTrans(p1, p2, p3);
    PrefixTrans(p1, p3, core.past);
    PrefixTrans(p2, p3, core.past);
    OpenedEarlier(p1, core.past, at, n);
    OpenedEarlier(p2, core.past, again, m);
    FetchesEarlier(High(value), p3, core.past, first);
    FetchesEarlier(Low(value), p3, core.past, second);
    ReadBackTold(was, First(addr << 1, n), 0, First((addr << 1) | 1, m));
    ReadBackMade(made, addr);
  }

  lemma OpenedBounds(past: seq<Input>, at: nat, n: nat)
    requires Opened(past, at, n)
    ensures at + 1 + n < |past|
  {
  }

  lemma ReadBackMade(made: seq<Write>, addr: Byte)
    ensures made + SelectWrites(addr) + StartWrites() + ByteWrites((addr << 1) | 1) + ReadWrites() + ReadWrites() + StopWrites()
      == made + ReadBackWrites(addr)
  {
    hide SelectWrites, StartWrites, ByteWrites, StopWrites, ReadWrites;
  }

  lemma Joined(first: Byte, second: Byte)
    ensures var value := ((first as bv16) << 8) | (second as bv16); High(value) == first && Low(value) == second
  {
  }

  /** The writes of `twi_write_2byte`, one by one. */
  lemma TransferExact(addr: Byte, buf: bv16)
    ensures TransferWrites(addr << 1, 0, Low(buf), High(buf)) ==
      [Write(0, 0x03), Write(4, addr << 1), Write(0, 0x13), Write(4, 0), Write(0, 0x13),
       Write(4, (buf & 0xff) as Byte), Write(0, 0x13), Write(4, (buf >> 8) as Byte), Write(0, 0x13), Write(0, 0x33)]
  {
  }

  /** The writes of `twi_read_2byte`, one by one. */
  lemma ReadBackWritesExact(addr: Byte)
    ensures ReadBackWrites(addr) ==
      [Write(0, 0x03), Write(4, addr << 1), Write(0, 0x13), Write(4, 0), Write(0, 0x13), Write(0, 0x33),
       Write(0, 0x03), Write(4, (addr << 1) | 1), Write(0, 0x13), Write(0, 0x23), Write(0, 0x23), Write(0, 0x33)]
  {
  }

  lemma SampledEarlier(b: Byte, past: seq<Input>, more: seq<Input>, at: nat)
    requires Sampled(b, past, at) && Prefix(past, more)
    ensures Sampled(b, more, at) && at + SampleTime(7) < |past|
  {
    hide Bit;
    forall k: nat | k < 8 ensures Bit(b, 7 - k) <==> more[at + SampleTime(k)].line {
      assert more[at + SampleTime(k)] == more[..|past|][at + SampleTime(k)];
    }
  }

  /** `read_temp`: the first byte. */
  method ReadTemp(core: Core) returns (value: bv16, ghost t: ReadTimes)
    requires Sized(core.Regs()) && Free(core.Regs())
    modifies core
    ensures Sized(core.Regs()) && Free(core.Regs())
    ensures core.told == old(core.told) + ReadBack(First(0x90, t.n), 0, First(0x91, t.m))
    ensures exists both: bv16 :: ReadsAt(core.past, |old(core.past)|, t, both) && value == both >> 8
    ensures WritesIn(core.past) == WritesIn(old(core.past)) + ReadBackWrites(REG_TEMP)
  {
    hide Free, ReadBack, First, ReadsAt, WritesIn, ReadBackWrites;
    var both;
    both, t := TwiRead2Byte(core, REG_TEMP);
    value := both >> 8;
  }
}
