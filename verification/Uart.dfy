/** The serial receiver: an interrupt handler fills a ring that the main program empties. */
module Uart {
  import opened Words
  import opened Options
  import opened Rings

  const RX_SIZE: nat := 1024

  /** The number of the item in the cell a reader that took `taken` items looks at, once `stored`
      items were stored: the newest one with the reader's index. */
  function NextItem(stored: nat, taken: nat): int
    requires taken < stored
  {
    stored - 1 - (stored - 1 - taken) % RX_SIZE
  }

  lemma NextItemFacts(stored: nat, taken: nat)
    requires taken < stored
    ensures var k := NextItem(stored, taken);
      && taken <= k < stored && stored - RX_SIZE <= k && k % RX_SIZE == taken % RX_SIZE
      && (stored - taken <= RX_SIZE ==> k == taken)
  {
    var gap: int := stored - 1 - taken;
    ModShift(taken, gap / RX_SIZE, RX_SIZE);
    assert gap == gap / RX_SIZE * RX_SIZE + gap % RX_SIZE;
  }

  class Receiver {
    const rxBuf: array<Byte>
    var rxProduce: nat
    var rxConsume: nat
    var coming: seq<Byte>        // what the line will still deliver

    ghost var stored: seq<Byte>  // everything the handler ever stored
    ghost var given: seq<Byte>   // everything the main program ever read
    ghost var inOrder: bool      // no byte was read while more than 1024 waited

    ghost function Repr(): set<object> { {this, rxBuf} }

    /** Everything the line ever carries. */
    ghost function Line(): seq<Byte>
      reads this
    {
      stored + coming
    }

    /** The ring looks empty. */
    ghost predicate Drained()
      reads this
    {
      |given| <= |stored| && (|stored| - |given|) % RX_SIZE == 0
    }

    /** The ring looks empty and the line stays silent. */
    ghost predicate Silent()
      reads this
    {
      coming == [] && Drained()
    }

    ghost predicate Valid()
      reads Repr()
    {
      && rxBuf.Length == RX_SIZE && Shows(Ring(rxBuf[..], rxProduce, rxConsume), stored, |given|)
      && (inOrder ==> given <= stored)
      && (!inOrder ==> |stored| > RX_SIZE)
    }

    constructor (line: seq<Byte>)
      ensures Valid() && fresh(Repr()) && coming == line && stored == [] && given == [] && inOrder
    {
      rxBuf := new Byte[RX_SIZE](_ => 0);
      rxProduce, rxConsume, coming := 0, 0, line;
      stored, given, inOrder := [], [], true;
    }

    lemma GivenBound()
      requires Valid()
      ensures |given| <= |stored|
    {
    }

    /** What was read in order is the beginning of the line; a short line is always read in order. */
    lemma GivenIsPrefix()
      requires Valid()
      ensures inOrder ==> given <= Line()
      ensures |Line()| <= RX_SIZE ==> inOrder
    {
    }

    /** `uart_isr`: stores every byte the device has ready, here `n` of them. */
    method Isr(n: nat)
      requires Valid() && n <= |coming|
      modifies Repr()
      ensures Valid() && coming == old(coming[n..]) && stored == old(stored) + old(coming[..n])
      ensures given == old(given) && rxConsume == old(rxConsume) && inOrder == old(inOrder)
    {
      var i := 0;
      while i < n
        invariant 0 <= i <= n <= |old(coming)| && Valid()
        invariant coming == old(coming[i..]) && stored == old(stored) + old(coming[..i])
        invariant given == old(given) && rxConsume == old(rxConsume) && inOrder == old(inOrder)
      {
        ghost var ring := Ring(rxBuf[..], rxProduce, rxConsume);
        var b := coming[0];
        rxBuf[rxProduce] := b;
        rxProduce := (rxProduce + 1) % RX_SIZE;
        coming := coming[1..];
        PushShows(ring, stored, |given|, b);
        assert Ring(rxBuf[..], rxProduce, rxConsume) == Push(ring, b);
        stored := stored + [b];
        assert old(coming[..i + 1]) == old(coming[..i]) + [b];
        i := i + 1;
      }
    }

    /** The handler may run between any two steps of the main program. */
    method Interrupt()
      requires Valid()
      modifies Repr()
      ensures Valid() && Line() == old(Line()) && old(stored) <= stored
      ensures given == old(given) && rxConsume == old(rxConsume) && inOrder == old(inOrder)
    {
      hide Shows;
      var n: nat :| n <= |coming|;
      ghost var all := coming;
      Isr(n);
      assert all == all[..n] + all[n..];
    }

    /** At least so many more bytes come in, or all that are left. */
    method Deliver(arriving: nat)
      requires Valid()
      modifies Repr()
      ensures Valid() && Line() == old(Line()) && old(stored) <= stored && given == old(given) && inOrder == old(inOrder)
      ensures |stored| >= if |old(stored)| + arriving < |Line()| then |old(stored)| + arriving else |Line()|
    {
      hide Shows;
      ghost var all := coming;
      var n := if arriving < |coming| then arriving else |coming|;
      Isr(n);
      assert all == all[..n] + all[n..];
      Interrupt();
    }

    /** `uart_read_nonblock`. */
    method ReadNonblock() returns (any: bool)
      requires Valid()
      modifies Repr()
      ensures Valid() && Line() == old(Line()) && old(stored) <= stored && |given| <= |stored|
      ensures given == old(given) && inOrder == old(inOrder)
      ensures any <==> !Drained()
    {
      Interrupt();
      any := rxConsume != rxProduce;
      HeadIsNewest(Ring(rxBuf[..], rxProduce, rxConsume), stored, |given|);
    }

    /** Waits for a byte; false stands for waiting forever on a line that stays silent. */
    method Wait() returns (any: bool)
      requires Valid()
      modifies Repr()
      ensures Valid() && Line() == old(Line()) && old(stored) <= stored
      ensures given == old(given) && rxConsume == old(rxConsume) && inOrder == old(inOrder)
      ensures if any then |given| < |stored| else Silent()
    {
      Interrupt();
      while rxConsume == rxProduce
        invariant Valid() && Line() == old(Line()) && old(stored) <= stored
        invariant given == old(given) && rxConsume == old(rxConsume) && inOrder == old(inOrder)
        decreases |coming|
      {
        if coming == [] {
          HeadIsNewest(Ring(rxBuf[..], rxProduce, rxConsume), stored, |given|);
          return false;
        }
        var n: nat :| 1 <= n <= |coming|;
        ghost var all := coming;
        Isr(n);
        assert all == all[..n] + all[n..];
      }
      DifferentIsBehind(Ring(rxBuf[..], rxProduce, rxConsume), stored, |given|);
      return true;
    }

    /** Loads the byte at the consume index. */
    method Load() returns (b: Byte)
      requires Valid() && |given| < |stored|
      ensures NextItem(|stored|, |given|) >= 0 && b == stored[NextItem(|stored|, |given|)]
    {
      NextItemFacts(|stored|, |given|);
      b := rxBuf[rxConsume];
    }

    /** Steps the consume index; the byte `b` was loaded when `at` bytes were stored. */
    method Advance(ghost b: Byte, ghost at: nat)
      requires Valid() && |given| < at <= |stored|
      requires NextItem(at, |given|) >= 0 && b == stored[NextItem(at, |given|)]
      modifies this
      ensures Valid() && given == old(given) + [b] && stored == old(stored) && coming == old(coming)
      ensures inOrder == (old(inOrder) && at - |old(given)| <= RX_SIZE)
    {
      ghost var ring := Ring(rxBuf[..], rxProduce, rxConsume);
      rxConsume := (rxConsume + 1) % RX_SIZE;
      DropShows(ring, stored, |given|);
      ReadsInOrder(at, |given|);
      if inOrder && at - |given| <= RX_SIZE {
        PrefixMore(given, stored);
      }
      inOrder := inOrder && at - |given| <= RX_SIZE;
      given := given + [b];
      assert Ring(rxBuf[..], rxProduce, rxConsume) == Drop(ring);
    }

    /** `uart_read`, with the handler free to run before each of its steps. None stands for waiting
        forever on a line that stays silent. `at` is the number of bytes stored when the byte was loaded. */
    method Read() returns (c: Option<Byte>, ghost at: nat)
      requires Valid()
      modifies Repr()
      ensures Valid() && Line() == old(Line()) && old(stored) <= stored
      ensures given == old(given) + if c.Some? then [c.value] else []
      ensures c == None ==> Silent() && inOrder == old(inOrder)
      ensures c.Some? ==> |old(given)| < at <= |stored| && |old(stored)| <= at
      ensures c.Some? ==> NextItem(at, |old(given)|) >= 0 && c.value == stored[NextItem(at, |old(given)|)]
      ensures c.Some? ==> inOrder == (old(inOrder) && at - |old(given)| <= RX_SIZE)
    {
      hide Valid, NextItem;
      at := 0;
      var any := Wait();
      if !any {
        return None, 0;
      }
      Interrupt();
      var b := Load();
      at := |stored|;
      NextItemFacts(at, |given|);
      Interrupt();
      Advance(b, at);
      Interrupt();
      c := Some(b);
    }
  }

  /** One more byte of a prefix. */
  lemma PrefixMore(a: seq<Byte>, all: seq<Byte>)
    requires a <= all && |a| < |all|
    ensures a + [all[|a|]] <= all
  {
  }

  /** While at most 1024 bytes wait the cell read holds the next byte, afterwards a later one. */
  lemma ReadsInOrder(at: nat, taken: nat)
    requires taken < at
    ensures NextItem(at, taken) == taken <==> at - taken <= RX_SIZE
  {
    NextItemFacts(at, taken);
  }

  // Lines that overrun the ring

  /** 1024 bytes come in before the first is read: the ring looks empty, and none is ever read if the
      line stays silent. */
  method FullRing(line: seq<Byte>) returns (any: bool)
    requires |line| == 1024
    ensures !any
  {
    var rx := new Receiver(line);
    rx.Isr(1024);
    any := rx.ReadNonblock();
  }

  /** One byte more: the first byte read is the last one that came. */
  method OneTooMany(line: seq<Byte>) returns (c: Option<Byte>)
    requires |line| == 1025
    ensures c == Some(line[1024])
  {
    hide Receiver.Valid;
    var rx := new Receiver(line);
    rx.Isr(1025);
    ghost var at;
    c, at := rx.Read();
  }
}
