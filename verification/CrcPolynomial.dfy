/** The CRC as a remainder of polynomials over GF(2), and the errors it must detect. */
module CrcPolynomial {
  import opened Words
  import opened Crc16

  // A polynomial is its coefficients, the highest power first.

  type Poly = seq<bool>

  function Zero(n: nat): (z: Poly)
    ensures |z| == n && forall i :: 0 <= i < n ==> !z[i]
  {
    seq(n, _ => false)
  }

  /** Sum of polynomials of equal length. */
  function Sum(a: Poly, b: Poly): (s: Poly)
    requires |a| == |b|
    ensures |s| == |a| && forall i :: 0 <= i < |a| ==> s[i] == (a[i] != b[i])
  {
    seq(|a|, i requires 0 <= i < |a| => a[i] != b[i])
  }

  /** x^16 + x^12 + x^5 + 1. */
  const GENERATOR: Poly :=
    [true, false, false, false, true, false, false, false, false, false, false, true, false, false, false, false, true]

  /** The generator times q. */
  function Times(q: Poly): (p: Poly)
    ensures |p| == |q| + 16
    decreases |q|
  {
    if q == [] then Zero(16)
    else
      var n := |q| - 1;
      var shifted := Times(q[..n]) + [false];
      if q[n] then Sum(shifted, Zero(n) + GENERATOR) else shifted
  }

  function Lefts(c: bv16, n: nat): bv16
    decreases n
  {
    if n == 0 then c else Lefts(Left(c), n - 1)
  }

  /** Coefficient i of the register, the highest first. */
  function Bit(c: bv16, i: nat): bool { High(Lefts(c, i)) }

  /** The register as the polynomial of degree below 16 it holds. */
  function RegisterBits(c: bv16): (p: Poly)
    ensures |p| == 16
  {
    seq(16, i requires 0 <= i < 16 => Bit(c, i))
  }

  /** m * x^16 == q * generator + r. */
  ghost predicate Divides(m: Poly, q: Poly, r: bv16) {
    |q| == |m| && Sum(Times(q), Zero(|m|) + RegisterBits(r)) == m + Zero(16)
  }

  ghost predicate IsRemainder(m: Poly, r: bv16) {
    exists q :: Divides(m, q, r)
  }

  // Existence

  lemma {:induction false} BitXor(a: bv16, b: bv16, i: nat)
    ensures Bit(Xor(a, b), i) == (Bit(a, i) != Bit(b, i))
    decreases i
  {
    hide Xor, Left, High;
    HighXor(a, b);
    if i > 0 {
      LeftXor(a, b);
      BitXor(Left(a), Left(b), i - 1);
    }
  }

  lemma {:induction false} BitZero(i: nat)
    ensures !Bit(0, i)
    decreases i
  {
    if i > 0 {
      assert Left(0) == 0;
      BitZero(i - 1);
    }
  }

  lemma BitTop(bit: bool, i: nat)
    ensures Bit(Top(bit), i) == (i == 0 && bit)
  {
    BitZero(i);
    if i > 0 && bit {
      assert Left(0x8000) == 0;
      BitZero(i - 1);
    }
  }

  lemma BitGenerator(i: nat)
    requires i < 16
    ensures Bit(0x1021, i) == GENERATOR[i + 1]
  {
    FourLefts(0x1021);
    FourLefts(0x0210);
    FourLefts(0x2100);
    if i < 4 {
      FirstBits(0x1021, i);
    } else if i < 8 {
      LeftsAdd(0x1021, 4, i - 4);
      FirstBits(0x0210, i - 4);
    } else if i < 12 {
      LeftsAdd(0x1021, 4, i - 4);
      LeftsAdd(0x0210, 4, i - 8);
      FirstBits(0x2100, i - 8);
    } else {
      LeftsAdd(0x1021, 4, i - 4);
      LeftsAdd(0x0210, 4, i - 8);
      LeftsAdd(0x2100, 4, i - 12);
      FirstBits(0x1000, i - 12);
    }
  }

  lemma FirstBits(c: bv16, i: nat)
    requires i < 4
    ensures Bit(c, i) == (c & (if i == 0 then 0x8000 else if i == 1 then 0x4000 else if i == 2 then 0x2000 else 0x1000) != 0)
  {
    assert Lefts(c, 1) == Left(c);
    assert Lefts(c, 2) == Left(Left(c));
    assert Lefts(c, 3) == Lefts(Left(c), 2) == Left(Left(Left(c)));
  }

  lemma {:induction false} LeftsAdd(c: bv16, m: nat, n: nat)
    ensures Lefts(c, m + n) == Lefts(Lefts(c, m), n)
    decreases m
  {
    hide Left;
    if m > 0 {
      LeftsAdd(Left(c), m - 1, n);
    }
  }

  lemma FourLefts(c: bv16)
    ensures Lefts(c, 4) == c << 4
  {
    var d := Left(Left(c));
    assert Lefts(c, 4) == Lefts(Left(c), 3) == Lefts(d, 2) == Left(Left(d));
  }

  lemma ShiftedOut(c: bv16)
    ensures Lefts(c, 16) == 0
  {
    hide Lefts;
    LeftsAdd(c, 4, 12);
    LeftsAdd(c << 4, 4, 8);
    LeftsAdd((c << 4) << 4, 4, 4);
    FourLefts(c);
    FourLefts(c << 4);
    FourLefts((c << 4) << 4);
    FourLefts(((c << 4) << 4) << 4);
    AllOut(c);
  }

  lemma AllOut(c: bv16)
    ensures (((c << 4) << 4) << 4) << 4 == 0
  {
  }

  /** Bit j of the register after one step, in terms of the bits before it. */
  lemma StepBits(c: bv16, bit: bool, j: nat)
    requires 1 <= j <= 16
    ensures Bit(Step(c, bit), j - 1) == ((j < 16 && Bit(c, j)) != (High(c) != bit && GENERATOR[j]))
  {
    hide Xor, Left, High, Top;
    var x := Xor(c, Top(bit));
    HighXor(c, Top(bit));
    BitTop(bit, 0);
    BitXor(c, Top(bit), j);
    BitTop(bit, j);
    assert Bit(Left(x), j - 1) == Bit(x, j);
    BitXor(Left(x), 0x1021, j - 1);
    BitGenerator(j - 1);
    if j == 16 {
      ShiftedOut(c);
      ZeroHigh();
    }
  }

  lemma ZeroHigh()
    ensures !High(0)
  {
  }

  function Quotient(m: Poly): (q: Poly)
    ensures |q| == |m|
    decreases |m|
  {
    if m == [] then []
    else
      var n := |m| - 1;
      Quotient(m[..n]) + [High(Divide(0, m[..n])) != m[n]]
  }

  lemma {:induction false} CrcDivides(m: Poly)
    ensures Divides(m, Quotient(m), Divide(0, m))
    decreases |m|
  {
    hide Step, Shift, RegisterBits;
    if m == [] {
      ZeroRegister();
      assert Sum(Zero(16), Zero(0) + Zero(16)) == [] + Zero(16);
    } else {
      var n := |m| - 1;
      var c, bit := Divide(0, m[..n]), m[n];
      CrcDivides(m[..n]);
      DivideAppend(0, m[..n], [bit]);
      assert m == m[..n] + [bit];
      DivideNext(c, bit, []);
      DivideLonger(m[..n], Quotient(m[..n]), c, bit);
    }
  }

  lemma ZeroRegister()
    ensures RegisterBits(0) == Zero(16)
  {
    forall i: nat | i < 16 ensures RegisterBits(0)[i] == Zero(16)[i] {
      BitZero(i);
    }
  }

  lemma DivideLonger(m: Poly, q: Poly, c: bv16, bit: bool)
    requires Divides(m, q, c)
    ensures Divides(m + [bit], q + [High(c) != bit], Step(c, bit))
  {
    hide Step, High, Lefts;
    var n, t := |m|, High(c) != bit;
    var q', m', c' := q + [t], m + [bit], Step(c, bit);
    assert q'[..n] == q;
    forall i | 0 <= i < n + 17
      ensures Sum(Times(q'), Zero(n + 1) + RegisterBits(c'))[i] == (m' + Zero(16))[i]
    {
      var prev := Sum(Times(q), Zero(n) + RegisterBits(c));
      if i < n + 16 {
        assert prev[i] == (m + Zero(16))[i];
      }
      if i >= n {
        var j := i - n;
        assert (Zero(n) + GENERATOR)[i] == GENERATOR[j];
        if j == 0 {
          assert Lefts(c, 0) == c by { NoLefts(c); }
        } else {
          StepBits(c, bit, j);
        }
      }
    }
  }

  lemma NoLefts(c: bv16)
    ensures Lefts(c, 0) == c
  {
  }

  // Uniqueness

  lemma {:induction false} TimesZero(n: nat)
    ensures Times(Zero(n)) == Zero(n + 16)
    decreases n
  {
    if n > 0 {
      assert Zero(n)[..n - 1] == Zero(n - 1);
      TimesZero(n - 1);
    }
  }

  /** The product starts where its factor starts. */
  lemma {:induction false} LeadingTerm(q: Poly, j: nat)
    requires j < |q| && q[j] && forall i :: 0 <= i < j ==> !q[i]
    ensures Times(q)[j]
    decreases |q|
  {
    var n := |q| - 1;
    if j < n {
      LeadingTerm(q[..n], j);
    } else {
      assert q[..n] == Zero(n);
      TimesZero(n);
    }
  }

  /** The product ends 16 places after its factor ends. */
  lemma {:induction false} TrailingTerm(q: Poly, j: nat)
    requires j < |q| && q[j] && forall i :: j < i < |q| ==> !q[i]
    ensures Times(q)[j + 16]
    decreases |q|
  {
    var n := |q| - 1;
    if j < n {
      TrailingTerm(q[..n], j);
    }
  }

  lemma {:induction false} TimesSum(a: Poly, b: Poly)
    requires |a| == |b|
    ensures Times(Sum(a, b)) == Sum(Times(a), Times(b))
    decreases |a|
  {
    if a == [] {
      assert Sum(a, b) == [];
    } else {
      var n := |a| - 1;
      TimesSum(a[..n], b[..n]);
      assert Sum(a, b)[..n] == Sum(a[..n], b[..n]);
    }
  }

  lemma {:induction false} BitsDecide(c: bv16, n: nat)
    requires n <= 16 && (forall i :: 0 <= i < n ==> !Bit(c, i)) && Lefts(c, n) == 0
    ensures c == 0
    decreases n
  {
    hide High, Left;
    if n > 0 {
      forall i | 0 <= i < n - 1 ensures !Bit(Left(c), i) {
        assert !Bit(c, i + 1);
      }
      BitsDecide(Left(c), n - 1);
      assert !Bit(c, 0);
      NothingLeft(c);
    }
  }

  lemma NothingLeft(c: bv16)
    requires Left(c) == 0 && !High(c)
    ensures c == 0
  {
  }

  lemma RegisterBitsInjective(a: bv16, b: bv16)
    requires RegisterBits(a) == RegisterBits(b)
    ensures a == b
  {
    hide Xor, Lefts, High;
    forall i: nat | i < 16 ensures !Bit(Xor(a, b), i) {
      BitXor(a, b, i);
      assert RegisterBits(a)[i] == RegisterBits(b)[i];
    }
    ShiftedOut(Xor(a, b));
    BitsDecide(Xor(a, b), 16);
    XorCancels(a, b);
    XorCommutes(0, b);
    XorZero(b);
  }

  /** A polynomial without coefficients set, or the place of its first one. */
  lemma {:induction false} FirstSet(q: Poly) returns (j: nat)
    ensures j <= |q| && (forall i :: 0 <= i < j ==> !q[i]) && (j < |q| ==> q[j])
    decreases |q|
  {
    if q == [] || q[0] {
      j := 0;
    } else {
      j := FirstSet(q[1..]);
      forall i | 0 <= i < j + 1 ensures !q[i] {
        assert i > 0 ==> q[i] == q[1..][i - 1];
      }
      j := j + 1;
    }
  }

  lemma {:induction false} LastSet(q: Poly) returns (j: int)
    ensures -1 <= j < |q| && (forall i :: j < i < |q| ==> !q[i]) && (j >= 0 ==> q[j])
    decreases |q|
  {
    if q == [] || q[|q| - 1] {
      j := |q| - 1;
    } else {
      var rest := q[..|q| - 1];
      j := LastSet(rest);
      forall i | j < i < |q| ensures !q[i] {
        assert i < |rest| ==> q[i] == rest[i];
      }
    }
  }

  lemma RemainderUnique(m: Poly, q1: Poly, r1: bv16, q2: Poly, r2: bv16)
    requires Divides(m, q1, r1) && Divides(m, q2, r2)
    ensures r1 == r2
  {
    hide RegisterBits;
    var n, d := |m|, Sum(q1, q2);
    var p1, p2 := Zero(n) + RegisterBits(r1), Zero(n) + RegisterBits(r2);
    TimesSum(q1, q2);
    forall i | 0 <= i < n + 16 ensures Times(d)[i] == (p1[i] != p2[i]) {
      assert Sum(Times(q1), p1)[i] == (m + Zero(16))[i] == Sum(Times(q2), p2)[i];
    }
    var j := FirstSet(d);
    if j < |d| {
      LeadingTerm(d, j);
      assert false;
    } else {
      assert d == Zero(n);
      TimesZero(n);
      forall i: nat | i < 16 ensures RegisterBits(r1)[i] == RegisterBits(r2)[i] {
        assert Times(d)[n + i] == (p1[n + i] != p2[n + i]);
      }
      RegisterBitsInjective(r1, r2);
    }
  }

  /** The CRC of a message is the one remainder of m * x^16 by the generator. */
  lemma CrcIsTheRemainder(m: Poly, r: bv16)
    ensures IsRemainder(m, r) <==> r == Divide(0, m)
  {
    CrcDivides(m);
    if IsRemainder(m, r) {
      var q :| Divides(m, q, r);
      RemainderUnique(m, q, r, Quotient(m), Divide(0, m));
    }
  }

  // Error detection

  /** The register is linear in its start and in the message. */
  lemma {:induction false} DivideLinear(c: bv16, d: bv16, a: Poly, b: Poly)
    requires |a| == |b|
    ensures Divide(Xor(c, d), Sum(a, b)) == Xor(Divide(c, a), Divide(d, b))
    decreases |a|
  {
    hide Xor, Step;
    if a == [] {
      assert Sum(a, b) == [];
    } else {
      StepLinear(c, d, a[0], b[0]);
      assert Sum(a, b)[1..] == Sum(a[1..], b[1..]);
      DivideLinear(Step(c, a[0]), Step(d, b[0]), a[1..], b[1..]);
    }
  }

  lemma StepLinear(c: bv16, d: bv16, x: bool, y: bool)
    ensures Step(Xor(c, d), x != y) == Xor(Step(c, x), Step(d, y))
  {
    hide Xor, Shift, Top;
    var t, u := Top(x), Top(y);
    ShiftLinear(Xor(c, t), Xor(d, u));
    TopXor(x, y);
    XorAssociates(Xor(c, t), d, u);
    XorLaws(c, d, t);
    XorAssociates(Xor(c, d), t, u);
  }

  lemma TopXor(x: bool, y: bool)
    ensures Xor(Top(x), Top(y)) == Top(x != y)
  {
  }

  /** Zero bits never clear a register that is not zero, and never disturb one that is. */
  lemma {:induction false} ZeroBits(c: bv16, n: nat)
    ensures Divide(c, Zero(n)) == 0 <==> c == 0
    decreases n
  {
    hide Step;
    if n > 0 {
      assert Zero(n)[1..] == Zero(n - 1);
      ZeroBits(Step(c, false), n - 1);
      StepZero(c);
    }
  }

  lemma StepZero(c: bv16)
    ensures Step(c, false) == 0 <==> c == 0
  {
    XorZero(c);
    ShiftZero(c);
  }

  lemma ShiftZero(c: bv16)
    ensures Shift(c) == 0 <==> c == 0
  {
  }

  lemma NoRemainder(e: Poly, q: Poly)
    requires Divides(e, q, 0)
    ensures Times(q) == e + Zero(16)
  {
    hide RegisterBits, Times;
    ZeroRegister();
    var p := Zero(|e|) + Zero(16);
    forall i | 0 <= i < |e| + 16 ensures Times(q)[i] == (e + Zero(16))[i] {
      assert Sum(Times(q), p)[i] == (e + Zero(16))[i];
    }
  }

  /** At most sixteen bits, one of them set, leave the register changed. */
  lemma ShortBurst(e: Poly)
    requires |e| <= 16 && exists i :: 0 <= i < |e| && e[i]
    ensures Divide(0, e) != 0
  {
    hide Divide, Divides, Quotient;
    if Divide(0, e) == 0 {
      CrcDivides(e);
      var q := Quotient(e);
      assert |q| == |e| by { QuotientLength(e); }
      NoRemainder(e, q);
      var j := LastSet(q);
      if j >= 0 {
        TrailingTerm(q, j);
        assert false;
      } else {
        NothingSet(e, q);
        assert false;
      }
    }
  }

  lemma NothingSet(e: Poly, q: Poly)
    requires |q| == |e| && Times(q) == e + Zero(16) && forall i :: 0 <= i < |q| ==> !q[i]
    ensures forall i :: 0 <= i < |e| ==> !e[i]
  {
    TimesZero(|e|);
    assert q == Zero(|e|);
    forall i | 0 <= i < |e| ensures !e[i] {
      assert (e + Zero(16))[i] == Zero(|e| + 16)[i];
    }
  }

  lemma QuotientLength(e: Poly)
    ensures |Quotient(e)| == |e|
  {
  }

  /** Every error burst of at most sixteen bits changes the CRC. */
  lemma BurstDetected(sent: seq<Byte>, received: seq<Byte>, before: nat, e: Poly, after: nat)
    requires |sent| == |received| && before + |e| + after == 8 * |sent|
    requires Sum(Bits(sent), Bits(received)) == Zero(before) + e + Zero(after)
    requires |e| <= 16 && exists i :: 0 <= i < |e| && e[i]
    ensures Crc(sent) != Crc(received)
  {
    hide Xor, Divide, Bits;
    var a, b := Bits(sent), Bits(received);
    DivideLinear(0, 0, a, b);
    XorZero(0);
    DivideAppend(0, Zero(before) + e, Zero(after));
    DivideAppend(0, Zero(before), e);
    ZeroBits(0, before);
    ShortBurst(e);
    ZeroBits(Divide(0, e), after);
    XorZero(Divide(0, a));
  }
}
