/** Cutting the byte stream from the host into packets. */
module Framing {
  import opened Words
  import opened Options
  import opened Packets

  /** Greedy scan: at each "HR" take 39 bytes as a frame, otherwise skip a byte. */
  function Scan(s: seq<Byte>): seq<Frame>
    decreases |s|
  {
    if |s| < 2 then []
    else if s[0] == H1 && s[1] == H2 then (if |s| < P_COUNT then [] else [s[..39]] + Scan(s[39..]))
    else Scan(s[1..])
  }

  /** Where the receiver stands: hunting, with the last byte seen, or the bytes of a frame so far. */
  datatype Stand = Hunting(last: Byte) | Filling(got: seq<Byte>)

  predicate Proper(m: Stand) {
    m.Filling? ==> 2 <= |m.got| < P_COUNT && m.got[0] == H1 && m.got[1] == H2
  }

  function After(m: Stand, c: Byte): Stand {
    match m
    case Hunting(last) => if last == H1 && c == H2 then Filling([H1, H2]) else Hunting(c)
    case Filling(got) => if |got| == P_COUNT - 1 then Hunting(0) else Filling(got + [c])
  }

  function Completed(m: Stand, c: Byte): Option<Frame>
    requires Proper(m)
  {
    if m.Filling? && |m.got| == P_COUNT - 1 then Some(m.got + [c]) else None
  }

  /** The frames that come out when the bytes `s` go in. */
  function Received(m: Stand, s: seq<Byte>): seq<Frame>
    requires Proper(m)
    decreases |s|
  {
    if s == [] then []
    else Listed(Completed(m, s[0])) + Received(After(m, s[0]), s[1..])
  }

  function Standing(m: Stand, s: seq<Byte>): (e: Stand)
    requires Proper(m)
    ensures Proper(e)
    decreases |s|
  {
    if s == [] then m else Standing(After(m, s[0]), s[1..])
  }

  /** Bytes already taken that may still belong to a frame. */
  function Held(m: Stand): seq<Byte> {
    match m case Hunting(last) => [last] case Filling(got) => got
  }

  /** Byte by byte or all at once, the frames are those of the greedy scan. */
  lemma {:induction false} ReceivedIsScan(m: Stand, s: seq<Byte>)
    requires Proper(m)
    ensures Received(m, s) == Scan(Held(m) + s)
    decreases |s|
  {
    if s == [] {
      assert Held(m) + s == Held(m);
    } else {
      ReceivedIsScan(After(m, s[0]), s[1..]);
      match m
      case Hunting(last) => HuntingScan(last, s);
      case Filling(got) => FillingScan(got, s);
    }
  }

  lemma HuntingScan(last: Byte, s: seq<Byte>)
    requires s != []
    ensures var next := After(Hunting(last), s[0]); Proper(next) && Scan(Held(next) + s[1..]) == Scan(Held(Hunting(last)) + s)
  {
    var next, rest, all := After(Hunting(last), s[0]), s[1..], Held(Hunting(last)) + s;
    assert all[1..] == s;
    if last == H1 && s[0] == H2 {
      assert all == [H1, H2] + rest;
    } else {
      assert all == [last] + s && Held(next) + rest == s;
    }
  }

  lemma FillingScan(got: seq<Byte>, s: seq<Byte>)
    requires Proper(Filling(got)) && s != []
    ensures var next := After(Filling(got), s[0]);
      Proper(next) && Listed(Completed(Filling(got), s[0])) + Scan(Held(next) + s[1..]) == Scan(got + s)
  {
    hide Scan;
    var front, rest := got + [s[0]], s[1..];
    assert got + s == front + rest;
    if |got| == P_COUNT - 1 {
      ScanFrame(front, rest);
      ScanSkipsZero(rest);
    } else {
      assert [] + Scan(front + rest) == Scan(front + rest);
    }
  }

  lemma ScanFrame(p: Frame, rest: seq<Byte>)
    requires p[0] == H1 && p[1] == H2
    ensures Scan(p + rest) == [p] + Scan(rest)
  {
    assert (p + rest)[..39] == p && (p + rest)[39..] == rest;
  }

  lemma ScanSkipsZero(s: seq<Byte>)
    ensures Scan([0] + s) == Scan(s)
  {
    assert ([0] + s)[1..] == s;
  }

  /** From power-on, whatever the arrivals and however often `get_pkg` is called. */
  lemma ReceivedFromPowerOn(s: seq<Byte>)
    ensures Received(Hunting(0), s) == Scan(s)
  {
    ReceivedIsScan(Hunting(0), s);
    ScanSkipsZero(s);
  }

  lemma {:induction false} ReceivedAppend(m: Stand, a: seq<Byte>, b: seq<Byte>)
    requires Proper(m)
    ensures Received(m, a + b) == Received(m, a) + Received(Standing(m, a), b)
    ensures Standing(m, a + b) == Standing(Standing(m, a), b)
    decreases |a|
  {
    if a == [] {
      assert a + b == b;
    } else {
      ReceivedAppend(After(m, a[0]), a[1..], b);
      assert (a + b)[1..] == a[1..] + b;
    }
  }

  /** The static variables of `get_pkg` and the packet buffer. */
  class Receiver {
    var preLast: Byte
    var last: Byte
    var start: bool
    var count: nat
    const pkg: array<Byte>

    ghost function Repr(): set<object> { {this, pkg} }

    ghost predicate Valid()
      reads Repr()
    {
      && pkg.Length == P_COUNT && 2 <= count < P_COUNT
      && (if start then pkg[0] == H1 && pkg[1] == H2 else count == 2)
    }

    ghost function Stand(): (s: Stand)
      requires Valid()
      reads Repr()
      ensures Proper(s)
    {
      if start then Filling(pkg[..count]) else Hunting(last)
    }

    constructor ()
      ensures Valid() && fresh(Repr()) && Stand() == Hunting(0)
    {
      preLast, last, start, count := 0, 0, false, 2;
      pkg := new Byte[P_COUNT](_ => 0);
    }

    lemma CountWhileHunting()
      requires Valid() && !start
      ensures count == 2
    {
    }

    /** One turn of the loop: a byte read from the line may complete a frame. */
    method TakeByte(c: Byte) returns (frame: Option<Frame>)
      requires Valid()
      modifies Repr()
      ensures Valid() && Proper(old(Stand())) && Stand() == After(old(Stand()), c)
      ensures frame == Completed(old(Stand()), c)
      ensures frame.Some? ==> !start && count == 2
    {
      frame := None;
      preLast := last;
      last := c;
      if start {
        pkg[count] := c;
        count := count + 1;
        assert pkg[..count] == old(pkg[..count]) + [c];
      }
      if count == P_COUNT {
        preLast, last := 0, 0;
        start, count := false, 2;
        frame := Some(pkg[..]);
        assert pkg[..] == pkg[..39];
      }
      if preLast == H1 && last == H2 && !start {
        pkg[0], pkg[1] := preLast, last;
        start, count := true, 2;
        assert pkg[..2] == [H1, H2];
      }
    }
  }
}
