/** The two-wire master: one register step a clock, a byte shifted out or in over nine SCL pulses. */
module Twi {
  import opened Options

  type Byte = bv8

  // Register addresses and command codes

  const I2CR: nat := 0
  const I2WD: nat := 4
  const CMD_START: bv8 := 0
  const CMD_WR: bv8 := 1
  const CMD_RD: bv8 := 2
  const CMD_STOP: bv8 := 3
  const CMD_RD_NO: bv8 := 4

  // Times in clocks, at a 1 MHz unit of 1

  const START_SDA: nat := 1201
  const SDA_SET: nat := 1401
  const SDA_WAIT: nat := 1201
  const START_SCL: nat := 1302
  const TWI_DONE: nat := 2603
  const STOP_SCL: nat := 51
  const LAST: nat := 4003    // 2 * SDA_SET + SDA_WAIT
  const PERIOD: nat := 4004

  /** A write cycle on the register bus. */
  datatype Write = Write(adr: nat, data: Byte)

  /** What a clock edge sees: a register write, and the level of the SDA line. */
  datatype Input = Input(write: Option<Write>, line: bool)

  /** `sda` is the output enable: true lets the line go. */
  datatype Registers = Registers(
    en: bool, init: bool, cmd: Byte, wd: Byte, done: bool, byteCnt: nat, cnt: nat, scl: bool, sda: bool, rd: Byte)

  predicate Sized(r: Registers) { r.byteCnt < 16 && r.cnt < 4096 }

  predicate Writes(i: Input, adr: nat) { i.write.Some? && i.write.value.adr == adr }

  function Data(i: Input): Byte { if i.write.Some? then i.write.value.data else 0 }

  predicate Bit(b: Byte, k: nat)
    requires k < 8
  {
    match k
    case 0 => b & 1 != 0
    case 1 => b & 2 != 0
    case 2 => b & 4 != 0
    case 3 => b & 8 != 0
    case 4 => b & 16 != 0
    case 5 => b & 32 != 0
    case 6 => b & 64 != 0
    case 7 => b & 128 != 0
  }

  function ShiftIn(b: Byte, low: bool): Byte { (b << 1) | (if low then 1 else 0) }

  /** Bits 6 to 4. */
  function Command(b: Byte): Byte { (b >> 4) & 7 }

  // The next value of each register, out of reset

  function NextCnt(r: Registers): (c: nat)
    ensures r.cnt < 4096 ==> c < 4096
  {
    var frame, moving := r.cmd == CMD_START || r.cmd == CMD_STOP, r.cmd == CMD_WR || r.cmd == CMD_RD;
    if !r.en then 0
    else if frame && r.init then 1
    else if frame && r.cnt != 0 then (r.cnt + 1) % 4096
    else if moving && r.init then 0
    else if moving && r.cnt < LAST && r.byteCnt < 9 then r.cnt + 1
    else if moving && r.cnt == LAST then 0
    else r.cnt
  }

  function NextByteCnt(r: Registers): (k: nat)
    ensures r.byteCnt < 16 ==> k < 16
  {
    if r.init then 0
    else if r.en && (r.cmd == CMD_WR || r.cmd == CMD_RD) && r.cnt == LAST then (r.byteCnt + 1) % 16
    else r.byteCnt
  }

  predicate NextDone(r: Registers, i: Input) {
    if Writes(i, I2CR) then Bit(Data(i), 2)
    else if r.init then false
    else if r.en && (r.cmd == CMD_START || r.cmd == CMD_STOP) && r.cnt == TWI_DONE then true
    else if r.en && (r.cmd == CMD_WR || r.cmd == CMD_RD) && r.byteCnt == 9 then true
    else r.done
  }

  function NextWd(r: Registers, i: Input): Byte {
    if Writes(i, I2WD) then Data(i)
    else if r.en && r.cmd == CMD_WR && r.cnt == LAST then ShiftIn(r.wd, true)
    else r.wd
  }

  predicate NextScl(r: Registers) {
    if !r.en then true
    else if r.cmd == CMD_START then r.cnt != START_SCL && r.scl
    else if r.cmd == CMD_WR || r.cmd == CMD_RD then
      (if r.cnt == 0 then false else if r.cnt == SDA_SET then true else if r.cnt == SDA_SET + SDA_WAIT then false else r.scl)
    else if r.cmd == CMD_STOP && r.cnt == SDA_SET then true
    else r.scl
  }

  predicate NextSda(r: Registers) {
    if !r.en then true
    else if r.cmd == CMD_START then r.cnt != START_SDA && r.sda
    else if r.cmd == CMD_WR then Bit(r.wd, 7)
    else if r.cmd == CMD_RD then !(r.byteCnt == 8 || r.byteCnt == 9)
    else if r.cmd == CMD_STOP then (if r.init then false else if r.cnt == STOP_SCL + SDA_SET then true else r.sda)
    else if r.cmd == CMD_RD_NO then true
    else r.sda
  }

  function NextRd(r: Registers, i: Input): Byte {
    if r.en && r.cmd == CMD_RD && r.cnt == SDA_SET + 100 && r.byteCnt <= 7 then ShiftIn(r.rd, i.line) else r.rd
  }

  /** All registers after a clock edge. */
  function Next(r: Registers, i: Input): (t: Registers)
    ensures Sized(r) ==> Sized(t)
  {
    var cr := Writes(i, I2CR);
    Registers(
      if cr then Bit(Data(i), 0) else r.en,
      cr && Bit(Data(i), 1),
      if cr then Command(Data(i)) else r.cmd,
      NextWd(r, i), NextDone(r, i), NextByteCnt(r), NextCnt(r), NextScl(r), NextSda(r), NextRd(r, i))
  }

  /** What a listener makes of one clock: a level at a rising edge of SCL, or SDA moving while SCL is high. */
  datatype Sign = Start | Stop | Level(high: bool)

  function Signs(r: Registers, t: Registers): seq<Sign> {
    if !r.scl && t.scl then [Level(t.sda)]
    else if r.scl && t.scl && r.sda != t.sda then [if t.sda then Stop else Start]
    else []
  }

  /** `past` is what the core saw since its reset and `told` what a listener made of its wires. */
  class Core {
    ghost var past: seq<Input>
    ghost var told: seq<Sign>
    var en: bool
    var init: bool
    var cmd: Byte
    var wd: Byte
    var done: bool
    var byteCnt: nat
    var cnt: nat
    var scl: bool
    var sda: bool
    var rd: Byte

    function Regs(): Registers
      reads this
    {
      Registers(en, init, cmd, wd, done, byteCnt, cnt, scl, sda, rd)
    }

    /** Reset. */
    constructor ()
      ensures Regs() == Registers(false, false, 0, 0, false, 0, 0, true, true, 0) && past == [] && told == []
    {
      past, told := [], [];
      en, init, cmd, wd, done, byteCnt, cnt, scl, sda, rd := false, false, 0, 0, false, 0, 0, true, true, 0;
    }

    // The always blocks

    method CntBlock() returns (next: nat)
      ensures next == NextCnt(Regs())
    {
      next := cnt;
      var frame, moving := en && (cmd == CMD_START || cmd == CMD_STOP), en && (cmd == CMD_WR || cmd == CMD_RD);
      if !en { next := 0; }
      else if frame && init { next := 1; }
      else if frame && cnt != 0 { next := (cnt + 1) % 4096; }
      else if moving && init { next := 0; }
      else if moving && cnt < LAST && byteCnt < 9 { next := cnt + 1; }
      else if moving && cnt == LAST { next := 0; }
    }

    method DoneBlock(i: Input) returns (next: bool)
      ensures next == NextDone(Regs(), i)
    {
      hide Bit;
      next := done;
      if Writes(i, I2CR) { next := Bit(Data(i), 2); }
      else if init { next := false; }
      else if en && (cmd == CMD_START || cmd == CMD_STOP) && cnt == TWI_DONE { next := true; }
      else if en && (cmd == CMD_WR || cmd == CMD_RD) && byteCnt == 9 { next := true; }
    }

    method SclBlock() returns (next: bool)
      ensures next == NextScl(Regs())
    {
      next := scl;
      if !en { next := true; }
      else if cmd == CMD_START { if cnt == START_SCL { next := false; } }
      else if cmd == CMD_WR || cmd == CMD_RD {
        if cnt == 0 { next := false; }
        else if cnt == SDA_SET { next := true; }
        else if cnt == SDA_SET + SDA_WAIT { next := false; }
      }
      else if cmd == CMD_STOP && cnt == SDA_SET { next := true; }
    }

    method SdaBlock() returns (next: bool)
      ensures next == NextSda(Regs())
    {
      hide Bit;
      next := sda;
      if !en { next := true; }
      else if cmd == CMD_START { if cnt == START_SDA { next := false; } }
      else if cmd == CMD_WR { next := Bit(wd, 7); }
      else if cmd == CMD_RD { next := !(byteCnt == 8 || byteCnt == 9); }
      else if cmd == CMD_STOP { if init { next := false; } else if cnt == STOP_SCL + SDA_SET { next := true; } }
      else if cmd == CMD_RD_NO { next := true; }
    }

    method DataBlocks(i: Input) returns (nextWd: Byte, nextRd: Byte, nextByteCnt: nat)
      ensures nextWd == NextWd(Regs(), i) && nextRd == NextRd(Regs(), i) && nextByteCnt == NextByteCnt(Regs())
    {
      hide ShiftIn;
      nextWd, nextRd, nextByteCnt := wd, rd, byteCnt;
      if Writes(i, I2WD) { nextWd := Data(i); }
      else if en && cmd == CMD_WR && cnt == LAST { nextWd := ShiftIn(wd, true); }
      if init { nextByteCnt := 0; }
      else if en && (cmd == CMD_WR || cmd == CMD_RD) && cnt == LAST { nextByteCnt := (byteCnt + 1) % 16; }
      if en && cmd == CMD_RD && cnt == SDA_SET + 100 && byteCnt <= 7 { nextRd := ShiftIn(rd, i.line); }
    }

    method ControlBlock(i: Input) returns (nextEn: bool, nextInit: bool, nextCmd: Byte)
      ensures var t := Next(Regs(), i); nextEn == t.en && nextInit == t.init && nextCmd == t.cmd
    {
      hide Bit, Command, NextCnt, NextDone, NextScl, NextSda, NextWd, NextRd, NextByteCnt;
      if Writes(i, I2CR) {
        nextEn, nextInit, nextCmd := Bit(Data(i), 0), Bit(Data(i), 1), Command(Data(i));
      } else {
        nextEn, nextInit, nextCmd := en, false, cmd;
      }
    }

    method Blocks(i: Input) returns (t: Registers)
      ensures t == Next(Regs(), i)
    {
      hide Bit, ShiftIn, Command, NextCnt, NextDone, NextScl, NextSda, NextWd, NextRd, NextByteCnt;
      var nextEn, nextInit, nextCmd := ControlBlock(i);
      var nextCnt := CntBlock();
      var nextDone := DoneBlock(i);
      var nextScl := SclBlock();
      var nextSda := SdaBlock();
      var nextWd, nextRd, nextByteCnt := DataBlocks(i);
      t := Registers(nextEn, nextInit, nextCmd, nextWd, nextDone, nextByteCnt, nextCnt, nextScl, nextSda, nextRd);
    }

    /** The rising clock edge: every block sees the registers as they were before it. */
    method Clock(i: Input)
      requires Sized(Regs())
      modifies this
      ensures Sized(Regs()) && Regs() == Next(old(Regs()), i)
      ensures past == old(past) + [i] && told == old(told) + Signs(old(Regs()), Regs())
    {
      hide Next, Signs, Sized;
      var t := Blocks(i);
      past, told := past + [i], told + Signs(Regs(), t);
      LatchControl(t);
      LatchData(t);
    }

    method LatchControl(t: Registers)
      modifies this`en, this`init, this`cmd, this`done, this`scl, this`sda
      ensures en == t.en && init == t.init && cmd == t.cmd && done == t.done && scl == t.scl && sda == t.sda
    {
      en, init, cmd, done, scl, sda := t.en, t.init, t.cmd, t.done, t.scl, t.sda;
    }

    method LatchData(t: Registers)
      modifies this`wd, this`rd, this`byteCnt, this`cnt
      ensures wd == t.wd && rd == t.rd && byteCnt == t.byteCnt && cnt == t.cnt
    {
      wd, rd, byteCnt, cnt := t.wd, t.rd, t.byteCnt, t.cnt;
    }
  }

  // Runs, and a listener on the two wires

  function Run(r: Registers, ins: seq<Input>): (t: Registers)
    requires Sized(r)
    ensures Sized(t)
    decreases |ins|
  {
    if ins == [] then r else Next(Run(r, ins[..|ins| - 1]), ins[|ins| - 1])
  }

  /** What a receiver takes: the level of SDA at each rising edge of SCL, in order. */
  function Heard(r: Registers, ins: seq<Input>): seq<bool>
    requires Sized(r)
    decreases |ins|
  {
    if ins == [] then []
    else
      var before, after := Run(r, ins[..|ins| - 1]), Run(r, ins);
      Heard(r, ins[..|ins| - 1]) + (if !before.scl && after.scl then [after.sda] else [])
  }

  /** SDA stays as it is from a rising edge of SCL through the falling one. */
  ghost predicate Stable(r: Registers, ins: seq<Input>)
    requires Sized(r)
    decreases |ins|
  {
    ins != [] ==>
      var before, after := Run(r, ins[..|ins| - 1]), Run(r, ins);
      Stable(r, ins[..|ins| - 1]) && (before.scl || after.scl ==> before.sda == after.sda)
  }

  /** All the signs of a run. */
  function Told(r: Registers, ins: seq<Input>): seq<Sign>
    requires Sized(r)
    decreases |ins|
  {
    if ins == [] then [] else Told(r, ins[..|ins| - 1]) + Signs(Run(r, ins[..|ins| - 1]), Run(r, ins))
  }

  function Levels(bits: seq<bool>): (signs: seq<Sign>)
    ensures |signs| == |bits|
  {
    seq(|bits|, i requires 0 <= i < |bits| => Level(bits[i]))
  }

  /** With SDA stable a listener hears levels and nothing else. */
  lemma {:induction false} StableTold(r: Registers, ins: seq<Input>)
    requires Sized(r) && Stable(r, ins)
    ensures Told(r, ins) == Levels(Heard(r, ins))
    decreases |ins|
  {
    hide Next, Run;
    if ins != [] {
      StableTold(r, ins[..|ins| - 1]);
    }
  }

  lemma {:induction false} RunsAppend(r: Registers, a: seq<Input>, b: seq<Input>)
    requires Sized(r)
    ensures Run(r, a + b) == Run(Run(r, a), b) && Told(r, a + b) == Told(r, a) + Told(Run(r, a), b)
    decreases |b|
  {
    hide Next, Signs;
    if b == [] {
      assert a + b == a;
    } else {
      var n := |b| - 1;
      RunsAppend(r, a, b[..n]);
      assert (a + b)[..|a + b| - 1] == a + b[..n];
    }
  }

  /** No register is written. */
  predicate Untouched(ins: seq<Input>) { forall i :: 0 <= i < |ins| ==> ins[i].write == None }

  // A byte out

  /** The data register after k shifts. */
  function Shifted(b: Byte, k: nat): Byte { if k == 0 then b else ShiftIn(Shifted(b, k - 1), true) }

  /** The level sent on the k-th pulse. */
  predicate BitOut(b: Byte, k: nat) { Bit(Shifted(b, k), 7) }

  function BitsOut(b: Byte, k: nat): (bits: seq<bool>)
    ensures |bits| == k
  {
    if k == 0 then [] else BitsOut(b, k - 1) + [BitOut(b, k - 1)]
  }

  /** The eight bits of a byte, most significant first. */
  function MsbFirst(b: Byte): seq<bool> {
    [Bit(b, 7), Bit(b, 6), Bit(b, 5), Bit(b, 4), Bit(b, 3), Bit(b, 2), Bit(b, 1), Bit(b, 0)]
  }

  lemma {:induction false} BitsOutAt(b: Byte, n: nat, k: nat)
    requires k < n
    ensures BitsOut(b, n)[k] == BitOut(b, k)
  {
    hide BitOut;
    if k < n - 1 {
      BitsOutAt(b, n - 1, k);
    }
  }

  /** Nine shifts send the byte, most significant bit first, and then let the line go. */
  lemma NineBits(b: Byte)
    ensures BitsOut(b, 9) == MsbFirst(b) + [true]
  {
    hide Shifted, Bit, BitOut, BitsOut;
    var sent, want := BitsOut(b, 9), MsbFirst(b) + [true];
    forall k: nat | k < 9 ensures sent[k] == want[k] {
      BitsOutAt(b, 9, k);
      SentBit(b, k);
    }
  }

  /** Bit n of a byte that has been shifted once is bit n - 1 of the byte. */
  lemma ShiftBit(b: Byte, n: nat)
    requires n < 8
    ensures Bit(ShiftIn(b, true), n) == if n == 0 then true else Bit(b, n - 1)
  {
  }

  lemma {:induction false} ShiftedBit(b: Byte, k: nat, n: nat)
    requires n < 8
    ensures Bit(Shifted(b, k), n) == if n < k then true else Bit(b, n - k)
  {
    hide Bit, ShiftIn;
    if k > 0 {
      ShiftBit(Shifted(b, k - 1), n);
      if n > 0 {
        ShiftedBit(b, k - 1, n - 1);
      }
    }
  }

  lemma SentBit(b: Byte, k: nat)
    ensures BitOut(b, k) == if k < 8 then Bit(b, 7 - k) else true
  {
    hide Bit, Shifted;
    ShiftedBit(b, k, 7);
  }

  /** A byte is told by its bits. */
  lemma BitsTell(a: Byte, b: Byte)
    ensures MsbFirst(a) == MsbFirst(b) <==> a == b
  {
    if MsbFirst(a) == MsbFirst(b) {
      var x, y := MsbFirst(a), MsbFirst(b);
      assert x[0] == y[0] && x[1] == y[1] && x[2] == y[2] && x[3] == y[3];
      assert x[4] == y[4] && x[5] == y[5] && x[6] == y[6] && x[7] == y[7];
      SameBits(a, b);
    }
  }

  lemma SameBits(a: Byte, b: Byte)
    requires Bit(a, 0) == Bit(b, 0) && Bit(a, 1) == Bit(b, 1) && Bit(a, 2) == Bit(b, 2) && Bit(a, 3) == Bit(b, 3)
    requires Bit(a, 4) == Bit(b, 4) && Bit(a, 5) == Bit(b, 5) && Bit(a, 6) == Bit(b, 6) && Bit(a, 7) == Bit(b, 7)
    ensures a == b
  {
  }

  /** The clocks of the nine pulses: bit k, clock c. */
  predicate Ticking(r: Registers, cmd: Byte, k: nat, c: nat) {
    && r.en && !r.init && r.cmd == cmd && !r.done && r.byteCnt == k && r.cnt == c && c < PERIOD
    && (r.scl <==> SDA_SET < c <= SDA_SET + SDA_WAIT)
  }

  /** After the ninth pulse nothing moves. */
  predicate Ended(r: Registers, cmd: Byte) {
    r.en && !r.init && r.cmd == cmd && r.byteCnt == 9 && r.cnt == 0 && !r.scl
  }

  /** The first clock of a transfer, which clears the counters. */
  predicate Starting(r: Registers, cmd: Byte) { Sized(r) && r.en && r.init && r.cmd == cmd && !r.scl }

  /** One clock of a transfer. */
  lemma Tick(r: Registers, i: Input, cmd: Byte, k: nat, c: nat)
    requires Sized(r) && (cmd == CMD_WR || cmd == CMD_RD) && k < 9 && i.write == None && Ticking(r, cmd, k, c)
    ensures c < LAST ==> Ticking(Next(r, i), cmd, k, c + 1)
    ensures c == LAST && k < 8 ==> Ticking(Next(r, i), cmd, k + 1, 0)
    ensures c == LAST && k == 8 ==> Ended(Next(r, i), cmd) && !Next(r, i).done
  {
    hide Bit, ShiftIn;
  }

  /** n clocks after the counters are cleared. */
  predicate Progress(r: Registers, cmd: Byte, n: nat) {
    if n < 9 * PERIOD then Ticking(r, cmd, n / PERIOD, n % PERIOD)
    else Ended(r, cmd) && (r.done <==> n > 9 * PERIOD)
  }

  lemma Progresses(r: Registers, i: Input, cmd: Byte, n: nat)
    requires Sized(r) && (cmd == CMD_WR || cmd == CMD_RD) && i.write == None && Progress(r, cmd, n)
    ensures Progress(Next(r, i), cmd, n + 1)
  {
    hide Bit, ShiftIn;
    if n < 9 * PERIOD {
      hide Next, Ticking, Ended;
      Tick(r, i, cmd, n / PERIOD, n % PERIOD);
      NextTime(n);
    }
  }

  /** The time one clock later. */
  lemma NextTime(n: nat)
    ensures if n % PERIOD < LAST then (n + 1) / PERIOD == n / PERIOD && (n + 1) % PERIOD == n % PERIOD + 1
            else (n + 1) / PERIOD == n / PERIOD + 1 && (n + 1) % PERIOD == 0
  {
  }

  /** The pulses that have risen n clocks after the counters are cleared. */
  function Pulses(n: nat): (k: nat)
    ensures k <= 9
  {
    if n >= 9 * PERIOD then 9 else n / PERIOD + (if n % PERIOD > SDA_SET then 1 else 0)
  }

  /** What a write in progress has put on the wires. */
  ghost predicate Sending(r: Registers, b: Byte, n: nat, heard: seq<bool>) {
    && Progress(r, CMD_WR, n)
    && r.wd == Shifted(b, if n < 9 * PERIOD then n / PERIOD else 9)
    && (n < 9 * PERIOD && n % PERIOD > 0 ==> r.sda == BitOut(b, n / PERIOD))
    && (n >= 9 * PERIOD ==> r.sda)
    && heard == BitsOut(b, Pulses(n))
  }

  lemma Sends(r: Registers, i: Input, b: Byte, n: nat, heard: seq<bool>)
    requires Sized(r) && i.write == None && Sending(r, b, n, heard)
    ensures var t := Next(r, i);
      && Sending(t, b, n + 1, heard + (if !r.scl && t.scl then [t.sda] else []))
      && (r.scl || t.scl ==> r.sda == t.sda)
  {
    hide Bit, ShiftIn, BitOut;
    var t := Next(r, i);
    Progresses(r, i, CMD_WR, n);
    assert heard + [] == heard;
    if n < 9 * PERIOD {
      hide Next, Progress, Shifted;
      var k, c := n / PERIOD, n % PERIOD;
      NextTime(n);
      SentBit(b, k);
      PulseRises(n);
      WriteStep(r, i, b, k, c);
    } else {
      WriteRests(r, i, b);
    }
  }

  lemma WriteStep(r: Registers, i: Input, b: Byte, k: nat, c: nat)
    requires Sized(r) && i.write == None && k < 9 && Ticking(r, CMD_WR, k, c) && r.wd == Shifted(b, k)
    ensures Next(r, i).wd == Shifted(b, if c == LAST then k + 1 else k)
    ensures Next(r, i).sda == BitOut(b, k)
    ensures Next(r, i).scl && !r.scl <==> c == SDA_SET
  {
    hide Bit, ShiftIn;
  }

  lemma WriteRests(r: Registers, i: Input, b: Byte)
    requires Sized(r) && i.write == None && Ended(r, CMD_WR) && r.wd == Shifted(b, 9)
    ensures Next(r, i).wd == r.wd && Next(r, i).sda && !Next(r, i).scl
  {
    hide Bit, ShiftIn;
    SentBit(b, 9);
  }

  lemma PulseRises(n: nat)
    requires n < 9 * PERIOD
    ensures Pulses(n + 1) == Pulses(n) + (if n % PERIOD == SDA_SET then 1 else 0)
    ensures n % PERIOD == SDA_SET ==> Pulses(n) == n / PERIOD
  {
    NextTime(n);
  }

  lemma RunOne(r: Registers, ins: seq<Input>)
    requires Sized(r) && |ins| == 1
    ensures Run(r, ins) == Next(r, ins[0])
    ensures Heard(r, ins) == if !r.scl && Next(r, ins[0]).scl then [Next(r, ins[0]).sda] else []
    ensures Stable(r, ins) <==> (r.scl || Next(r, ins[0]).scl ==> r.sda == Next(r, ins[0]).sda)
  {
    hide Next;
    assert ins[..0] == [];
  }

  /** What the first clock leaves: an SCL glitch at count 1401, a lost bit at count 4003. */
  lemma Starts(r: Registers, i: Input)
    requires Starting(r, CMD_WR) && i.write == None
    ensures var t := Next(r, i);
      && t.wd == (if r.cnt == LAST then ShiftIn(r.wd, true) else r.wd)
      && (t.scl <==> r.cnt == SDA_SET) && Ticking(t.(scl := false), CMD_WR, 0, 0)
  {
    hide Bit, ShiftIn;
  }

  function Loaded(r: Registers): Byte { if r.cnt == LAST then ShiftIn(r.wd, true) else r.wd }

  /** The whole course of a write that starts without a glitch. */
  lemma {:induction false} WriteRuns(r: Registers, ins: seq<Input>)
    requires Starting(r, CMD_WR) && Untouched(ins) && ins != [] && r.cnt != SDA_SET
    ensures Sending(Run(r, ins), Loaded(r), |ins| - 1, Heard(r, ins)) && Stable(r, ins)
    decreases |ins|
  {
    hide Next, ShiftIn;
    if |ins| == 1 {
      RunOne(r, ins);
      Starts(r, ins[0]);
    } else {
      hide Sending;
      var n := |ins| - 1;
      WriteRuns(r, ins[..n]);
      Sends(Run(r, ins[..n]), ins[n], Loaded(r), n - 1, Heard(r, ins[..n]));
    }
  }

  /** The course of a write that starts with a glitch: one pulse too many. */
  lemma {:induction false} GlitchRuns(r: Registers, ins: seq<Input>) returns (extra: bool, heard: seq<bool>)
    requires Starting(r, CMD_WR) && Untouched(ins) && |ins| >= 2 && r.cnt == SDA_SET
    ensures Sending(Run(r, ins), r.wd, |ins| - 1, heard) && Heard(r, ins) == [extra] + heard
    ensures Stable(r, ins) <==> r.sda == Bit(r.wd, 7)
    decreases |ins|
  {
    hide Next, ShiftIn, Sending, Bit;
    var n := |ins| - 1;
    if n == 1 {
      extra, heard := GlitchStarts(r, ins);
    } else {
      extra, heard := GlitchRuns(r, ins[..n]);
      var before, after := Run(r, ins[..n]), Run(r, ins);
      Sends(before, ins[n], r.wd, n - 1, heard);
      var more := if !before.scl && after.scl then [after.sda] else [];
      assert [extra] + heard + more == [extra] + (heard + more);
      heard := heard + more;
    }
  }

  lemma GlitchStarts(r: Registers, ins: seq<Input>) returns (extra: bool, heard: seq<bool>)
    requires Starting(r, CMD_WR) && Untouched(ins) && |ins| == 2 && r.cnt == SDA_SET
    ensures Sending(Run(r, ins), r.wd, 1, heard) && Heard(r, ins) == [extra] + heard
    ensures Stable(r, ins) <==> r.sda == Bit(r.wd, 7)
  {
    hide Next, ShiftIn, Sending, Bit;
    RunOne(r, ins[..1]);
    Starts(r, ins[0]);
    var t := Next(r, ins[0]);
    extra, heard := t.sda, [];
    SecondClock(t, ins[1], r.wd);
    FirstLevel(r, ins[0]);
  }

  lemma FirstLevel(r: Registers, i: Input)
    requires Starting(r, CMD_WR)
    ensures Next(r, i).sda == Bit(r.wd, 7)
  {
    hide Bit, ShiftIn;
  }

  lemma SecondClock(t: Registers, i: Input, b: Byte)
    requires Sized(t) && Ticking(t.(scl := false), CMD_WR, 0, 0) && i.write == None && t.wd == b
    ensures Sending(Next(t, i), b, 1, []) && !Next(t, i).scl && Next(t, i).sda == Bit(b, 7)
  {
    hide Bit, ShiftIn;
  }

  /** A byte write heard to its end: nine pulses carry the eight bits, most significant first, and a
      released line; unless the counter was left at 1401 (SCL glitches) or at 4003 (the first bit is
      shifted away, which only a byte of ones survives). */
  lemma ByteHeard(r: Registers, ins: seq<Input>)
    requires Starting(r, CMD_WR) && Untouched(ins) && |ins| >= 9 * PERIOD + 2
    ensures Heard(r, ins) == MsbFirst(r.wd) + [true] <==> r.cnt != SDA_SET && (r.cnt != LAST || r.wd == 255)
    ensures Ended(Run(r, ins), CMD_WR) && Run(r, ins).done && Run(r, ins).sda
  {
    hide Next, ShiftIn, Bit, MsbFirst, BitsOut, Heard, Stable, Shifted, BitOut;
    NineBits(r.wd);
    if r.cnt == SDA_SET {
      var extra, heard := GlitchRuns(r, ins);
      assert |MsbFirst(r.wd)| == 8 by { EightBits(r.wd); }
    } else {
      WriteRuns(r, ins);
      NineBits(Loaded(r));
      BitsTell(Loaded(r), r.wd);
      EightBits(r.wd);
      EightBits(Loaded(r));
      SameFront(MsbFirst(Loaded(r)), MsbFirst(r.wd), true);
      OnesSurvive(r.wd);
    }
  }

  lemma EightBits(b: Byte)
    ensures |MsbFirst(b)| == 8
  {
  }

  lemma SameFront(a: seq<bool>, b: seq<bool>, x: bool)
    requires |a| == |b|
    ensures a + [x] == b + [x] <==> a == b
  {
    assert (a + [x])[..|a|] == a && (b + [x])[..|b|] == b;
  }

  lemma OnesSurvive(b: Byte)
    ensures ShiftIn(b, true) == b <==> b == 255
  {
  }

  /** `done` stays low until the ninth pulse is over, and SDA moves only while SCL is low; unless the
      first clock glitches SCL, when it must already stand at the first bit. */
  lemma WriteIsOrderly(r: Registers, ins: seq<Input>)
    requires Starting(r, CMD_WR) && Untouched(ins) && ins != []
    ensures Run(r, ins).done <==> |ins| >= 9 * PERIOD + 2
    ensures Stable(r, ins) <==> r.cnt != SDA_SET || r.sda == Bit(r.wd, 7)
  {
    hide Next, Bit;
    if r.cnt != SDA_SET {
      WriteRuns(r, ins);
    } else if |ins| >= 2 {
      var extra, heard := GlitchRuns(r, ins);
    } else {
      RunOne(r, ins);
      Starts(r, ins[0]);
      FirstLevel(r, ins[0]);
    }
  }

  // A byte in

  /** The clock whose SDA level is taken as bit k. */
  function SampleTime(k: nat): nat { 1 + PERIOD * k + SDA_SET + 100 }

  /** The levels sampled n clocks after the counters are cleared. */
  function Samples(n: nat): (k: nat)
    ensures k <= 8
  {
    if n >= 8 * PERIOD then 8 else n / PERIOD + (if n % PERIOD > SDA_SET + 100 then 1 else 0)
  }

  /** A reading master lets the line go for eight pulses and pulls it down for the ninth. */
  function Acknowledge(k: nat): (bits: seq<bool>)
    ensures |bits| == k
  {
    seq(k, i => i < 8)
  }

  /** Bit j is the sample j places before the newest of k. */
  predicate Matches(rd: Byte, ins: seq<Input>, k: nat, j: nat)
    requires j < k <= 8
  {
    SampleTime(k - 1 - j) < |ins| && (Bit(rd, j) <==> ins[SampleTime(k - 1 - j)].line)
  }

  /** The last k samples, the newest in bit 0. */
  ghost predicate Taken(rd: Byte, ins: seq<Input>, k: nat)
    requires k <= 8
  {
    forall j: nat :: j < k ==> Matches(rd, ins, k, j)
  }

  lemma TakeNext(rd: Byte, ins: seq<Input>, k: nat)
    requires k < 8 && SampleTime(k) < |ins| && Taken(rd, ins, k)
    ensures Taken(ShiftIn(rd, ins[SampleTime(k)].line), ins, k + 1)
  {
    hide Bit, ShiftIn;
    var level := ins[SampleTime(k)].line;
    var shifted, next := ShiftIn(rd, level), k + 1;
    forall j: nat | j < next ensures Matches(shifted, ins, next, j) {
      ShiftLevel(rd, level, j);
      if j > 0 {
        assert Matches(rd, ins, k, j - 1);
      }
    }
  }

  /** What a read in progress has taken from the wires and put on them. */
  ghost predicate Reading(r: Registers, ins: seq<Input>, n: nat, heard: seq<bool>) {
    && Progress(r, CMD_RD, n) && n < |ins|
    && Taken(r.rd, ins, Samples(n))
    && (n < 9 * PERIOD && n % PERIOD > 0 ==> (r.sda <==> n / PERIOD < 8))
    && heard == Acknowledge(Pulses(n))
  }

  lemma ShiftLevel(b: Byte, level: bool, n: nat)
    requires n < 8
    ensures Bit(ShiftIn(b, level), n) == if n == 0 then level else Bit(b, n - 1)
  {
  }

  lemma SampleTaken(n: nat)
    requires n < 9 * PERIOD
    ensures Samples(n + 1) == Samples(n) + (if n % PERIOD == SDA_SET + 100 && n / PERIOD <= 7 then 1 else 0)
    ensures n % PERIOD == SDA_SET + 100 && n / PERIOD <= 7 ==> Samples(n) == n / PERIOD && SampleTime(n / PERIOD) == n + 1
  {
    NextTime(n);
  }

  lemma Reads(r: Registers, ins: seq<Input>, n: nat, heard: seq<bool>)
    requires Sized(r) && n + 1 < |ins| && ins[n + 1].write == None && Reading(r, ins, n, heard)
    ensures var t := Next(r, ins[n + 1]);
      Reading(t, ins, n + 1, heard + (if !r.scl && t.scl then [t.sda] else [])) && (r.scl || t.scl ==> r.sda == t.sda)
  {
    hide Bit, ShiftIn, Taken;
    var i := ins[n + 1];
    var t := Next(r, i);
    Progresses(r, i, CMD_RD, n);
    assert heard + [] == heard;
    if n < 9 * PERIOD {
      hide Next, Progress;
      var k, c := n / PERIOD, n % PERIOD;
      NextTime(n);
      PulseRises(n);
      SampleTaken(n);
      ReadStep(r, i, k, c);
      if c == SDA_SET + 100 && k <= 7 {
        TakeNext(r.rd, ins, k);
      }
      assert Acknowledge(k + 1) == Acknowledge(k) + [k < 8];
    }
  }

  lemma ReadStep(r: Registers, i: Input, k: nat, c: nat)
    requires Sized(r) && i.write == None && k < 9 && Ticking(r, CMD_RD, k, c)
    ensures Next(r, i).rd == if c == SDA_SET + 100 && k <= 7 then ShiftIn(r.rd, i.line) else r.rd
    ensures Next(r, i).sda <==> k < 8
    ensures Next(r, i).scl && !r.scl <==> c == SDA_SET
  {
    hide Bit, ShiftIn;
  }

  /** The whole course of a read; a glitch at its start is one more pulse. */
  lemma {:induction false} ReadRuns(r: Registers, ins: seq<Input>, m: nat) returns (extra: seq<bool>, heard: seq<bool>)
    requires Starting(r, CMD_RD) && Untouched(ins) && 1 <= m <= |ins| && (r.cnt == SDA_SET ==> m >= 2)
    ensures Reading(Run(r, ins[..m]), ins, m - 1, heard) && Heard(r, ins[..m]) == extra + heard
    ensures |extra| == if r.cnt == SDA_SET then 1 else 0
    ensures r.cnt != SDA_SET ==> Stable(r, ins[..m])
    decreases m
  {
    hide Next, Bit, Reading, Untouched;
    assert ins[m - 1].write == None && ins[0].write == None && (m > 1 ==> ins[1].write == None) by { AllSilent(ins); }
    if m == 1 || (m == 2 && r.cnt == SDA_SET) {
      RunOne(r, ins[..1]);
      assert ins[..m][..m - 1] == ins[..m - 1];
      extra, heard := ReadStarts(r, ins, m);
    } else {
      extra, heard := ReadRuns(r, ins, m - 1);
      assert ins[..m][..m - 1] == ins[..m - 1];
      var before, after := Run(r, ins[..m - 1]), Run(r, ins[..m]);
      Reads(before, ins, m - 2, heard);
      var more := if !before.scl && after.scl then [after.sda] else [];
      assert extra + heard + more == extra + (heard + more);
      heard := heard + more;
    }
  }

  lemma AllSilent(ins: seq<Input>)
    requires Untouched(ins)
    ensures forall i :: 0 <= i < |ins| ==> ins[i].write == None
  {
  }

  lemma ReadStarts(r: Registers, ins: seq<Input>, m: nat) returns (extra: seq<bool>, heard: seq<bool>)
    requires Starting(r, CMD_RD) && m == (if r.cnt == SDA_SET then 2 else 1) && m <= |ins|
    requires ins[0].write == None && ins[m - 1].write == None
    ensures var t := Next(r, ins[0]);
      && Reading(if m == 1 then t else Next(t, ins[1]), ins, m - 1, heard) && heard == []
      && extra == (if t.scl then [t.sda] else []) && (t.scl <==> m == 2) && (m == 2 ==> !Next(t, ins[1]).scl)
  {
    hide Bit, ShiftIn;
    heard := [];
    var t := Next(r, ins[0]);
    extra := if t.scl then [t.sda] else [];
    assert Samples(m - 1) == 0 && Pulses(m - 1) == 0 && Acknowledge(0) == [];
  }

  /** Bit k is sampled on the k-th pulse, while SCL is high. */
  lemma SampledHigh(r: Registers, ins: seq<Input>, k: nat)
    requires Starting(r, CMD_RD) && Untouched(ins) && k < 8 && SampleTime(k) < |ins| && r.cnt != SDA_SET
    ensures Run(r, ins[..SampleTime(k)]).scl && |Heard(r, ins[..SampleTime(k)])| == k + 1
  {
    hide Next, Heard, Taken;
    var m := SampleTime(k);
    var extra, heard := ReadRuns(r, ins, m);
    assert (m - 1) / PERIOD == k && (m - 1) % PERIOD == SDA_SET + 100;
    assert extra + heard == heard;
  }

  /** A byte read to its end holds the eight levels of SDA in the middle of the pulses, the first one
      as its most significant bit; the ninth pulse carries the master's acknowledge, unless the
      counter was left at 1401 and SCL glitches first. */
  lemma ByteRead(r: Registers, ins: seq<Input>)
    requires Starting(r, CMD_RD) && Untouched(ins) && |ins| >= 9 * PERIOD + 2
    ensures forall k: nat :: k < 8 ==> (Bit(Run(r, ins).rd, 7 - k) <==> ins[SampleTime(k)].line)
    ensures Heard(r, ins) == [true, true, true, true, true, true, true, true, false] <==> r.cnt != SDA_SET
    ensures Ended(Run(r, ins), CMD_RD) && Run(r, ins).done
  {
    hide Next, Bit, Heard;
    var extra, heard := ReadRuns(r, ins, |ins|);
    assert ins[..|ins|] == ins;
    var end := Run(r, ins);
    assert Samples(|ins| - 1) == 8 && heard == Acknowledge(9);
    assert Acknowledge(9) == [true, true, true, true, true, true, true, true, false];
    assert r.cnt != SDA_SET ==> extra + heard == heard;
    forall k: nat | k < 8 ensures Bit(end.rd, 7 - k) <==> ins[SampleTime(k)].line {
      var j: nat := 7 - k;
      assert Matches(end.rd, ins, 8, j);
    }
  }

  // A start condition

  /** c clocks into a start: SDA falls, then SCL, then the command is done while the counter runs on
      until it wraps to 0; `sda` and `scl` tell how the lines stood. */
  predicate Started(r: Registers, c: nat, sda: bool, scl: bool) {
    && r.en && !r.init && r.cmd == CMD_START && r.cnt == (if c < 4096 then c else 0)
    && (r.sda <==> sda && c <= START_SDA) && (r.scl <==> scl && c <= START_SCL) && (r.done <==> c > TWI_DONE)
  }

  lemma StartStep(r: Registers, i: Input, c: nat, sda: bool, scl: bool)
    requires Sized(r) && c >= 1 && Started(r, c, sda, scl) && !Writes(i, I2CR)
    ensures Started(Next(r, i), c + 1, sda, scl)
    ensures Signs(r, Next(r, i)) == if c == START_SDA && sda && scl then [Start] else []
  {
    hide Bit, ShiftIn;
  }

  predicate NoCommand(ins: seq<Input>) { forall i :: 0 <= i < |ins| ==> !Writes(ins[i], I2CR) }

  /** A start from any state; the counter it finds can pull a line at once. */
  lemma {:induction false} StartRuns(r: Registers, ins: seq<Input>)
    requires Sized(r) && r.en && r.init && r.cmd == CMD_START && ins != [] && NoCommand(ins)
    ensures Started(Run(r, ins), |ins|, r.sda && r.cnt != START_SDA, r.scl && r.cnt != START_SCL)
    ensures r.sda && r.scl && r.cnt != START_SDA && r.cnt != START_SCL ==> Told(r, ins) == if |ins| > START_SDA then [Start] else []
    decreases |ins|
  {
    hide Next, Bit, Signs;
    if |ins| == 1 {
      RunOne(r, ins);
      FirstStart(r, ins[0]);
    } else {
      var n := |ins| - 1;
      StartRuns(r, ins[..n]);
      StartStep(Run(r, ins[..n]), ins[n], n, r.sda && r.cnt != START_SDA, r.scl && r.cnt != START_SCL);
    }
  }

  lemma FirstStart(r: Registers, i: Input)
    requires Sized(r) && r.en && r.init && r.cmd == CMD_START && !Writes(i, I2CR)
    ensures Started(Next(r, i), 1, r.sda && r.cnt != START_SDA, r.scl && r.cnt != START_SCL)
    ensures r.sda && r.scl && r.cnt != START_SDA && r.cnt != START_SCL ==> Signs(r, Next(r, i)) == []
  {
    hide Bit, ShiftIn;
  }

  /** A start, then a write command after it is done: the byte is heard unless the command lands on
      the one clock that finds the counter at 4003 (or the byte is all ones). */
  lemma StartThenByte(r: Registers, start: seq<Input>, write: Input, ins: seq<Input>)
    requires Sized(r) && r.en && r.init && r.cmd == CMD_START
    requires |start| > TWI_DONE && NoCommand(start)
    requires write.write == Some(Write(I2CR, 0x13)) && Untouched(ins) && |ins| >= 9 * PERIOD + 2
    ensures var ready := Run(r, start);
      var going := Next(ready, write);
      && ready.done && Starting(going, CMD_WR) && going.wd == ready.wd
      && (Heard(going, ins) == MsbFirst(ready.wd) + [true] <==> |start| != LAST - 1 || ready.wd == 255)
  {
    hide ShiftIn, Heard, MsbFirst, Stable;
    StartRuns(r, start);
    var ready := Run(r, start);
    CommandTaken(ready, write, |start|, r.sda && r.cnt != START_SDA, r.scl && r.cnt != START_SCL);
    ByteHeard(Next(ready, write), ins);
  }

  lemma CommandTaken(r: Registers, i: Input, c: nat, sda: bool, scl: bool)
    requires Sized(r) && Started(r, c, sda, scl) && c > TWI_DONE && i.write == Some(Write(I2CR, 0x13))
    ensures var t := Next(r, i); Starting(t, CMD_WR) && t.wd == r.wd && t.cnt == (if c + 1 < 4096 then c + 1 else 0)
  {
    hide ShiftIn;
  }

  /** A byte that is not heard: its command comes after 4002 clocks of a start. */
  lemma ByteLost(r: Registers, write: Input, quiet: Input) returns (start: seq<Input>, ins: seq<Input>)
    requires Sized(r) && r.en && r.init && r.cmd == CMD_START && r.wd == 0
    requires write.write == Some(Write(I2CR, 0x13)) && quiet.write == None
    ensures Run(r, start).done && Starting(Next(Run(r, start), write), CMD_WR) && Next(Run(r, start), write).wd == 0
    ensures Untouched(start) && Untouched(ins) && |ins| == 9 * PERIOD + 2
    ensures Heard(Next(Run(r, start), write), ins) != MsbFirst(0) + [true]
  {
    hide Heard, MsbFirst, Run, Next;
    start, ins := seq(LAST - 1, _ => quiet), seq(9 * PERIOD + 2, _ => quiet);
    DataKept(r, start);
    StartThenByte(r, start, write, ins);
  }

  lemma {:induction false} DataKept(r: Registers, ins: seq<Input>)
    requires Sized(r) && r.en && r.init && r.cmd == CMD_START && Untouched(ins)
    ensures Run(r, ins).wd == r.wd
    decreases |ins|
  {
    hide Next;
    if ins != [] {
      var n := |ins| - 1;
      DataKept(r, ins[..n]);
      if n > 0 {
        StartRuns(r, ins[..n]);
      }
      DataStep(Run(r, ins[..n]), ins[n]);
    }
  }

  lemma DataStep(r: Registers, i: Input)
    requires r.cmd != CMD_WR && i.write == None
    ensures Next(r, i).wd == r.wd
  {
  }

  /** A byte that is not heard for a glitch: its command cuts another write short when the counter
      reaches 1401. */
  lemma ByteGlitched(r: Registers, write: Input, quiet: Input) returns (cut: seq<Input>, ins: seq<Input>)
    requires Starting(r, CMD_WR) && r.cnt == 0 && write.write == Some(Write(I2CR, 0x13)) && quiet.write == None
    ensures Untouched(cut) && Untouched(ins) && |ins| == 9 * PERIOD + 2
    ensures var going := Next(Run(r, cut), write);
      Starting(going, CMD_WR) && going.cnt == SDA_SET && Heard(going, ins) != MsbFirst(going.wd) + [true]
  {
    hide Heard, MsbFirst, Run, Next, Stable, Shifted, BitOut, Pulses, BitsOut;
    cut, ins := seq(SDA_SET, _ => quiet), seq(9 * PERIOD + 2, _ => quiet);
    WriteRuns(r, cut);
    CutShort(Run(r, cut), write);
    ByteHeard(Next(Run(r, cut), write), ins);
  }

  lemma CutShort(r: Registers, write: Input)
    requires Sized(r) && Ticking(r, CMD_WR, 0, SDA_SET - 1) && write.write == Some(Write(I2CR, 0x13))
    ensures var going := Next(r, write); Starting(going, CMD_WR) && going.cnt == SDA_SET
  {
    hide ShiftIn;
  }

  // The times on the wires, in clocks

  /** A write: nine pulses of 1201 clocks, one each 4004 clocks, and `done` two clocks after the last
      period. */
  lemma WriteTimes(r: Registers, ins: seq<Input>)
    requires Starting(r, CMD_WR) && Untouched(ins) && ins != [] && r.cnt != 1401
    ensures var n := |ins| - 1;
      && (Run(r, ins).scl <==> n < 36036 && 1401 < n % 4004 <= 2602)
      && (Run(r, ins).done <==> n > 36036)
  {
    hide Next, Shifted, BitOut, BitsOut, Heard;
    WriteRuns(r, ins);
  }

  /** A read in clocks: bit 7 - k is the level of SDA at clock 1502 + 4004 k. */
  lemma ReadSamples(r: Registers, ins: seq<Input>, k: nat)
    requires Starting(r, CMD_RD) && Untouched(ins) && |ins| >= 36038 && k < 8
    ensures Bit(Run(r, ins).rd, 7 - k) <==> ins[1502 + 4004 * k].line
  {
    hide Next, Bit, Heard, Starting;
    ByteRead(r, ins);
    assert SampleTime(k) == 1502 + 4004 * k;
  }

  /** A start: SDA falls after 1201 clocks, SCL after 1302, and it is done after 2603. */
  lemma StartTimes(r: Registers, ins: seq<Input>)
    requires Sized(r) && r.en && r.init && r.cmd == CMD_START && ins != [] && NoCommand(ins) && r.scl && r.sda && r.cnt == 0
    ensures (Run(r, ins).sda <==> |ins| <= 1201) && (Run(r, ins).scl <==> |ins| <= 1302) && (Run(r, ins).done <==> |ins| > 2603)
  {
    hide Next;
    StartRuns(r, ins);
  }
}
