/** The aligned copy of the C library: bytes, half words and words, each at its natural alignment. */
module Memcpy {
  import opened Words

  /** Copying byte by byte, upwards. */
  function ByteCopy(mem: seq<Byte>, dest: nat, src: nat, n: nat): (m: seq<Byte>)
    requires dest + n <= |mem| && src + n <= |mem|
    ensures |m| == |mem|
    decreases n
  {
    if n == 0 then mem else ByteCopy(mem[dest := mem[src]], dest + 1, src + 1, n - 1)
  }

  predicate Disjoint(dest: nat, src: nat, n: nat) { dest + n <= src || src + n <= dest }

  function Copied(mem: seq<Byte>, dest: nat, src: nat, n: nat): seq<Byte>
    requires dest + n <= |mem| && src + n <= |mem|
  {
    mem[..dest] + mem[src..src + n] + mem[dest + n..]
  }

  /** Between disjoint regions exactly the n bytes at `dest` change, to those at `src`. */
  lemma {:induction false} ByteCopyIs(mem: seq<Byte>, dest: nat, src: nat, n: nat)
    requires dest + n <= |mem| && src + n <= |mem| && Disjoint(dest, src, n)
    ensures ByteCopy(mem, dest, src, n) == Copied(mem, dest, src, n)
    decreases n
  {
    hide Copied;
    if n == 0 {
      NoBytes(mem, dest, src);
    } else {
      ByteCopyIs(mem[dest := mem[src]], dest + 1, src + 1, n - 1);
      OneByteLess(mem, dest, src, n);
    }
  }

  lemma NoBytes(mem: seq<Byte>, dest: nat, src: nat)
    requires dest <= |mem| && src <= |mem|
    ensures Copied(mem, dest, src, 0) == mem
  {
  }

  lemma OneByteLess(mem: seq<Byte>, dest: nat, src: nat, n: nat)
    requires 0 < n && dest + n <= |mem| && src + n <= |mem| && Disjoint(dest, src, n)
    ensures Copied(mem[dest := mem[src]], dest + 1, src + 1, n - 1) == Copied(mem, dest, src, n)
  {
    var next := mem[dest := mem[src]];
    assert next[..dest + 1] == mem[..dest] + [mem[src]];
    assert next[src + 1..src + 1 + (n - 1)] == mem[src + 1..src + n] && next[dest + 1 + (n - 1)..] == mem[dest + n..];
    assert mem[src..src + n] == [mem[src]] + mem[src + 1..src + n];
  }

  lemma {:induction false} ByteCopyMore(mem: seq<Byte>, dest: nat, src: nat, n: nat, k: nat)
    requires dest + n + k <= |mem| && src + n + k <= |mem|
    ensures ByteCopy(mem, dest, src, n + k) == ByteCopy(ByteCopy(mem, dest, src, n), dest + n, src + n, k)
    decreases n
  {
    if n > 0 {
      ByteCopyMore(mem[dest := mem[src]], dest + 1, src + 1, n - 1, k);
    }
  }

  predicate Aligned(addr: nat, size: nat) {
    size == 1 || (size == 2 && addr % 2 == 0) || (size == 4 && addr % 4 == 0)
  }

  /** The bytes of so many accesses of one size. */
  function Span(size: nat, times: nat): nat
    requires size in {1, 2, 4}
  {
    if size == 1 then times else if size == 2 then 2 * times else 4 * times
  }

  lemma AlignedAfter(addr: nat, size: nat, times: nat)
    requires Aligned(addr, size)
    ensures Aligned(addr + Span(size, times), size) && Aligned(addr, 1)
    ensures size == 4 ==> Aligned(addr, 2)
  {
    if size == 2 {
      Twos(addr / 2, times);
    } else if size == 4 {
      Fours(addr / 4, times);
      Twos(addr / 4 * 2, 0);
    }
  }

  lemma Twos(k: nat, times: nat)
    ensures (2 * k + 2 * times) % 2 == 0
  {
    assert 2 * k + 2 * times == 2 * (k + times);
  }

  lemma Fours(k: nat, times: nat)
    ensures (4 * k + 4 * times) % 4 == 0
  {
    assert 4 * k + 4 * times == 4 * (k + times);
  }

  /** The word, half word and byte parts of a length. */
  lemma Parts(n: nat)
    ensures n == Span(4, n / 4) + Span(2, n / 2 % 2) + n % 2 && n == Span(2, n / 2) + n % 2
    ensures n >= 4 <==> n / 4 > 0
    ensures Span(4, n / 4) == 4 * (n / 4) && Span(2, n / 2) == 2 * (n / 2) && Span(2, 1) == 2 && Span(2, 0) == 0 && Span(1, n) == n
  {
  }

  /** One load and one store of 1, 2 or 4 bytes. The processor traps on an access that is not
      naturally aligned, so alignment is required here. */
  method Move(mem: array<Byte>, dest: nat, src: nat, size: nat)
    requires size in {1, 2, 4}
    requires (size == 2 ==> dest % 2 == 0 && src % 2 == 0) && (size == 4 ==> dest % 4 == 0 && src % 4 == 0)
    requires dest + size <= mem.Length && src + size <= mem.Length && Disjoint(dest, src, size)
    modifies mem
    ensures mem[..] == ByteCopy(old(mem[..]), dest, src, size)
  {
    ByteCopyIs(mem[..], dest, src, size);
    ghost var was := mem[..];
    forall k | 0 <= k < size {
      mem[dest + k] := mem[src + k];
    }
    assert mem[..] == was[..dest] + was[src..src + size] + was[dest + size..];
  }

  /** Where a copy stands: `copied` of `total` bytes. */
  datatype Job = Job(dest: nat, src: nat, total: nat)

  predicate Fits(j: Job, length: nat) {
    j.dest + j.total <= length && j.src + j.total <= length && Disjoint(j.dest, j.src, j.total)
  }

  /** One more access of a copy under way. */
  method Step(mem: array<Byte>, ghost was: seq<Byte>, j: Job, copied: nat, size: nat)
    requires |was| == mem.Length && Fits(j, mem.Length) && copied + size <= j.total
    requires size in {1, 2, 4} && Aligned(j.dest + copied, size) && Aligned(j.src + copied, size)
    requires mem[..] == ByteCopy(was, j.dest, j.src, copied)
    modifies mem
    ensures mem[..] == ByteCopy(was, j.dest, j.src, copied + size)
  {
    ByteCopyMore(was, j.dest, j.src, copied, size);
    Move(mem, j.dest + copied, j.src + copied, size);
  }

  /** A loop of accesses of one size. */
  method Steps(mem: array<Byte>, ghost was: seq<Byte>, j: Job, copied: nat, size: nat, times: nat)
    requires size in {1, 2, 4} && Aligned(j.dest + copied, size) && Aligned(j.src + copied, size)
    requires |was| == mem.Length && Fits(j, mem.Length) && copied + Span(size, times) <= j.total
    requires mem[..] == ByteCopy(was, j.dest, j.src, copied)
    modifies mem
    ensures mem[..] == ByteCopy(was, j.dest, j.src, copied + Span(size, times))
  {
    hide ByteCopy, Aligned;
    var temp, at := times, copied;
    while temp > 0
      invariant 0 <= temp <= times && at + Span(size, temp) == copied + Span(size, times)
      invariant Aligned(j.dest + at, size) && Aligned(j.src + at, size)
      invariant mem[..] == ByteCopy(was, j.dest, j.src, at)
    {
      Step(mem, was, j, at, size);
      AlignedAfter(j.dest + at, size, 1);
      AlignedAfter(j.src + at, size, 1);
      at, temp := at + size, temp - 1;
    }
  }

  /** The last bytes, when both pointers are at a word boundary or fewer than four are left. */
  method CopyWords(mem: array<Byte>, ghost was: seq<Byte>, j: Job, copied: nat)
    requires |was| == mem.Length && Fits(j, mem.Length) && copied <= j.total
    requires Aligned(j.dest + copied, 2) && Aligned(j.src + copied, 4)
    requires j.total - copied >= 4 ==> Aligned(j.dest + copied, 4)
    requires mem[..] == ByteCopy(was, j.dest, j.src, copied)
    modifies mem
    ensures mem[..] == ByteCopy(was, j.dest, j.src, j.total)
  {
    hide ByteCopy, Aligned, Span;
    var at, n := copied, j.total - copied;
    var temp := n / 4;
    Parts(n);
    if temp > 0 {
      AlignedAfter(j.dest + at, 4, temp);
      AlignedAfter(j.src + at, 4, temp);
      Steps(mem, was, j, at, 4, temp);
      at := at + 4 * temp;
      AlignedAfter(j.dest + at, 4, 0);
      AlignedAfter(j.src + at, 4, 0);
    }
    AlignedAfter(j.dest + at, 2, 1);
    AlignedAfter(j.src + at, 4, 0);
    AlignedAfter(j.src + at, 2, 1);
    if n / 2 % 2 == 1 {
      Step(mem, was, j, at, 2);
      at := at + 2;
    }
    if n % 2 == 1 {
      AlignedAlways(j.dest + at);
      AlignedAlways(j.src + at);
      Step(mem, was, j, at, 1);
    }
  }

  lemma AlignedAlways(addr: nat)
    ensures Aligned(addr, 1)
  {
  }

  /** From even addresses on. */
  method CopyEven(mem: array<Byte>, ghost was: seq<Byte>, j: Job, copied: nat)
    requires |was| == mem.Length && Fits(j, mem.Length) && copied <= j.total
    requires Aligned(j.dest + copied, 2) && Aligned(j.src + copied, 2)
    requires mem[..] == ByteCopy(was, j.dest, j.src, copied)
    modifies mem
    ensures mem[..] == ByteCopy(was, j.dest, j.src, j.total)
  {
    hide ByteCopy, Aligned, Span;
    var at, n := copied, j.total - copied;
    if n > 2 && (j.dest + at) / 2 % 2 == 1 {
      Step(mem, was, j, at, 2);
      Realigned(j.dest + at);
      Realigned(j.src + at);
      at, n := at + 2, n - 2;
    }
    Halved(j.dest + at);
    Halved(j.src + at);
    if (j.src + at) / 2 % 2 == 1 {
      Parts(n);
      Steps(mem, was, j, at, 2, n / 2);
      if n % 2 == 1 {
        AlignedAlways(j.dest + at + 2 * (n / 2));
        AlignedAlways(j.src + at + 2 * (n / 2));
        Step(mem, was, j, at + 2 * (n / 2), 1);
      }
    } else {
      CopyWords(mem, was, j, at);
    }
  }

  lemma Realigned(addr: nat)
    requires Aligned(addr, 2)
    ensures Aligned(addr + 2, 2) && (addr + 2) / 2 % 2 == 1 - addr / 2 % 2
  {
  }

  lemma Halved(addr: nat)
    requires Aligned(addr, 2)
    ensures Aligned(addr, 4) <==> addr / 2 % 2 == 0
  {
  }

  /** `memcpy` is the byte-by-byte copy, at any alignments and lengths. */
  method Copy(mem: array<Byte>, dest: nat, src: nat, n: nat) returns (xto: nat)
    requires dest + n <= mem.Length && src + n <= mem.Length && Disjoint(dest, src, n)
    modifies mem
    ensures mem[..] == ByteCopy(old(mem[..]), dest, src, n) && xto == dest
  {
    hide ByteCopy;
    ghost var was := mem[..];
    NothingCopied(was, dest, src);
    var j, at := Job(dest, src, n), 0;
    xto := dest;
    if n == 0 {
      return;
    }
    if dest % 2 == 1 {
      Step(mem, was, j, at, 1);
      at := 1;
    }
    if (src + at) % 2 == 1 {
      Steps(mem, was, j, at, 1, n - at);
    } else {
      CopyEven(mem, was, j, at);
    }
  }

  lemma NothingCopied(mem: seq<Byte>, dest: nat, src: nat)
    requires dest <= |mem| && src <= |mem|
    ensures ByteCopy(mem, dest, src, 0) == mem
  {
  }
}
