/** Index-masked rings: the produce index never waits for the consume index. */
module Rings {
  datatype Ring<T> = Ring(cells: seq<T>, produce: nat, consume: nat)

  predicate Proper<T>(r: Ring<T>) {
    |r.cells| > 0 && r.produce < |r.cells| && r.consume < |r.cells|
  }

  function Push<T>(r: Ring<T>, x: T): Ring<T>
    requires Proper(r)
  {
    Ring(r.cells[r.produce := x], (r.produce + 1) % |r.cells|, r.consume)
  }

  function Drop<T>(r: Ring<T>): Ring<T>
    requires Proper(r)
  {
    r.(consume := (r.consume + 1) % |r.cells|)
  }

  /** How many items a reader sees between the indices. */
  function Count<T>(r: Ring<T>): (n: nat)
    requires Proper(r)
    ensures n < |r.cells| && (n == 0 <==> r.produce == r.consume)
  {
    (r.produce - r.consume) % |r.cells|
  }

  /** The items a reader will take, in order. */
  function Visible<T>(r: Ring<T>): (v: seq<T>)
    requires Proper(r)
    ensures |v| == Count(r)
  {
    seq(Count(r), i requires 0 <= i < Count(r) => r.cells[(r.consume + i) % |r.cells|])
  }

  /** `log` is everything ever pushed, `taken` how many items were dropped: each cell holds the
      newest item whose number has its index. */
  ghost predicate Shows<T>(r: Ring<T>, log: seq<T>, taken: nat) {
    && Proper(r) && taken <= |log|
    && r.produce == |log| % |r.cells| && r.consume == taken % |r.cells|
    && forall k :: 0 <= k < |log| && |log| - |r.cells| <= k ==> r.cells[k % |r.cells|] == log[k]
  }

  lemma ModEqual(a: int, b: int, n: int)
    requires n > 0 && a % n == b % n && -n < a - b < n
    ensures a == b
  {
    var p, q := a / n, b / n;
    assert a == p * n + a % n && b == q * n + b % n;
    assert a - b == (p - q) * n by { Distribute(p, q, n); }
    if p > q {
      Multiple(p - q, n);
    } else if p < q {
      Multiple(q - p, n);
      Negate(q - p, n);
    }
  }

  lemma Distribute(p: int, q: int, n: int)
    ensures p * n - q * n == (p - q) * n
  {
  }

  lemma Negate(k: int, n: int)
    ensures (-k) * n == -(k * n)
  {
  }

  lemma Multiple(k: int, n: int)
    requires k >= 1 && n > 0
    ensures k * n >= n
  {
    assert (k - 1) * n >= 0 by { Product(k - 1, n); }
  }

  lemma Product(k: int, n: int)
    requires k >= 0 && n > 0
    ensures k * n >= 0
  {
  }

  lemma ModAdd(a: int, b: int, n: int)
    requires n > 0
    ensures (a % n + b) % n == (a + b) % n
  {
    var q := a / n;
    ModShift(a % n + b, q, n);
    assert a == q * n + a % n;
  }

  lemma ModShift(x: int, q: int, n: int)
    requires n > 0
    ensures (x + q * n) % n == x % n
  {
    var y := x + q * n;
    var p := x / n;
    assert x == p * n + x % n;
    assert y == (p + q) * n + x % n by { Distribute(p + q, q, n); }
    ModUnique(y, p + q, x % n, n);
  }

  lemma ModUnique(y: int, q: int, r: int, n: int)
    requires n > 0 && 0 <= r < n && y == q * n + r
    ensures y % n == r
  {
    var p := y / n;
    assert y == p * n + y % n;
    assert (q - p) * n == y % n - r by { Distribute(q, p, n); }
    if q > p {
      Multiple(q - p, n);
    } else if q < p {
      Multiple(p - q, n);
      Negate(p - q, n);
    }
  }

  lemma ModSub(a: int, b: int, n: int)
    requires n > 0
    ensures (a % n - b % n) % n == (a - b) % n
  {
    var p, q := a / n, b / n;
    assert a == p * n + a % n && b == q * n + b % n;
    ModShift(a % n - b % n, p - q, n);
    Distribute(p, q, n);
  }

  lemma PushShows<T>(r: Ring<T>, log: seq<T>, taken: nat, x: T)
    requires Shows(r, log, taken)
    ensures Shows(Push(r, x), log + [x], taken)
  {
    var n := |r.cells|;
    ModAdd(|log|, 1, n);
    var next, log' := Push(r, x), log + [x];
    forall k | 0 <= k < |log'| && |log'| - n <= k ensures next.cells[k % n] == log'[k] {
      if k < |log| && k % n == |log| % n {
        ModEqual(k, |log|, n);
      }
    }
  }

  lemma DropShows<T>(r: Ring<T>, log: seq<T>, taken: nat)
    requires Shows(r, log, taken) && taken < |log|
    ensures Shows(Drop(r), log, taken + 1)
  {
    ModAdd(taken, 1, |r.cells|);
  }

  /** A reader always sees the newest (pushed - taken) mod N items, oldest first. */
  lemma VisibleIsNewest<T>(r: Ring<T>, log: seq<T>, taken: nat)
    requires Shows(r, log, taken)
    ensures Count(r) == (|log| - taken) % |r.cells|
    ensures Count(r) <= |log| && Visible(r) == log[|log| - Count(r)..]
  {
    var n, c := |r.cells|, Count(r);
    ModSub(|log|, taken, n);
    ModBelow(|log| - taken, n);
    forall i | 0 <= i < c ensures Visible(r)[i] == log[|log| - c + i] {
      var k := |log| - c + i;
      ModAdd(taken, i, n);
      var q := (|log| - taken) / n;
      assert |log| - taken == q * n + c;
      assert k == taken + i + q * n;
      ModShift(taken + i, q, n);
      assert r.cells[k % n] == log[k];
    }
  }

  /** A reader that finds the indices different is behind. */
  lemma DifferentIsBehind<T>(r: Ring<T>, log: seq<T>, taken: nat)
    requires Shows(r, log, taken) && r.produce != r.consume
    ensures taken < |log|
  {
  }

  lemma ModBelow(a: int, n: int)
    requires a >= 0 && n > 0
    ensures a % n <= a
  {
    var q := a / n;
    assert a == q * n + a % n;
    Product(q, n);
  }

  /** Nothing is lost exactly while fewer than N items are outstanding. */
  lemma LosslessIff<T>(r: Ring<T>, log: seq<T>, taken: nat)
    requires Shows(r, log, taken)
    ensures |Visible(r)| == |log| - taken <==> |log| - taken < |r.cells|
    ensures |log| - taken < |r.cells| ==> Visible(r) == log[taken..]
  {
    VisibleIsNewest(r, log, taken);
    if |log| - taken < |r.cells| {
      ModUnique(|log| - taken, 0, |log| - taken, |r.cells|);
    }
  }

  /** What the next read returns: the oldest of the visible items. */
  lemma HeadIsNewest<T>(r: Ring<T>, log: seq<T>, taken: nat)
    requires Shows(r, log, taken)
    ensures var waiting := (|log| - taken) % |r.cells|;
      && waiting <= |log| && (r.produce == r.consume <==> waiting == 0)
      && (waiting > 0 ==> r.cells[r.consume] == log[|log| - waiting])
    ensures 0 < |log| - taken < |r.cells| ==> r.cells[r.consume] == log[taken]
  {
    VisibleIsNewest(r, log, taken);
    var v := Visible(r);
    if |v| > 0 {
      ModUnique(r.consume, 0, r.consume, |r.cells|);
      assert v[0] == r.cells[r.consume];
    }
    LosslessIff(r, log, taken);
  }
}
