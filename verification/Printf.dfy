/** The integer printer of the C library: digits built backwards in a 12-byte buffer, then padded. */
module Printf {
  import opened Words
  import opened Options

  type Int32 = i: int | -0x8000_0000 <= i < 0x8000_0000

  const PRINT_BUF_LEN: nat := 12

  /** The `pad` bits PAD_RIGHT and PAD_ZERO. */
  datatype Pad = Pad(right: bool, zero: bool)

  predicate Base(b: nat) { b == 10 || b == 16 }

  predicate Letter(c: char) { c == 'a' || c == 'A' }

  function Quotient(u: nat, b: nat): nat
    requires Base(b)
  {
    if b == 10 then u / 10 else u / 16
  }

  function Remainder(u: nat, b: nat): (t: nat)
    requires Base(b)
    ensures t < b
  {
    if b == 10 then u % 10 else u % 16
  }

  function Times(u: nat, b: nat): nat
    requires Base(b)
  {
    if b == 10 then 10 * u else 16 * u
  }

  lemma Division(u: nat, b: nat)
    requires Base(b)
    ensures Times(Quotient(u, b), b) + Remainder(u, b) == u
    ensures u > 0 ==> Quotient(u, b) < u
  {
  }

  function Digit(t: nat, letbase: char): char
    requires t < 16 && Letter(letbase)
  {
    if t >= 10 then (t - 10) as char + letbase else t as char + '0'
  }

  /** A positive number without leading zeros; nothing for 0. */
  function Digits(u: nat, b: nat, letbase: char): string
    requires Base(b) && Letter(letbase)
  {
    if u == 0 then ""
    else
      Division(u, b);
      Digits(Quotient(u, b), b, letbase) + [Digit(Remainder(u, b), letbase)]
  }

  function Fill(n: nat, c: char): (s: string)
    ensures |s| == n && forall i :: 0 <= i < n ==> s[i] == c
  {
    seq(n, _ => c)
  }

  function PadChar(pad: Pad): char { if pad.zero then '0' else ' ' }

  function Padded(s: string, width: nat, pad: Pad): string {
    var fill := Fill(if width > |s| then width - |s| else 0, PadChar(pad));
    if pad.right then s + fill else fill + s
  }

  function Unsigned(i: Int32): U32 { if i < 0 then i + 0x1_0000_0000 else i }

  /** Only `%d` prints a minus sign. */
  predicate Negative(i: Int32, b: nat, sg: bool) { sg && b == 10 && i < 0 }

  function Magnitude(i: Int32, b: nat, sg: bool): U32 { if Negative(i, b, sg) then 0 - (i as int) else Unsigned(i) }

  function Printed(i: Int32, b: nat, sg: bool, width: nat, pad: Pad, letbase: char): string
    requires Base(b) && Letter(letbase)
  {
    if i == 0 then Padded("0", width, pad)
    else
      var digits := Digits(Magnitude(i, b, sg), b, letbase);
      if !Negative(i, b, sg) then Padded(digits, width, pad)
      else if width != 0 && pad.zero then "-" + Padded(digits, width - 1, pad)
      else Padded("-" + digits, width, pad)
  }

  /** Where `*dest` is advanced: the text written so far. */
  class Dest {
    var text: string

    constructor ()
      ensures text == ""
    {
      text := "";
    }

    method Put(c: char)
      modifies this
      ensures text == old(text) + [c]
    {
      text := text + [c];
    }
  }

  /** A NUL-terminated string at an index of a buffer. */
  ghost predicate IsString(b: string, at: nat, s: string) {
    at + |s| < |b| && b[at..at + |s|] == s && b[at + |s|] == 0 as char && 0 as char !in s
  }

  lemma CharsAre(b: string, at: nat, s: string)
    requires IsString(b, at, s)
    ensures forall k :: at <= k < at + |s| ==> b[k] == s[k - at] && b[k] != 0 as char
  {
    assert forall k :: at <= k < at + |s| ==> b[k] == b[at..at + |s|][k - at];
  }

  method PutFill(dest: Dest, n: nat, c: char)
    modifies dest
    ensures dest.text == old(dest.text) + Fill(n, c)
  {
    var left := n;
    while left > 0
      invariant 0 <= left <= n && dest.text == old(dest.text) + Fill(n - left, c)
    {
      dest.Put(c);
      assert Fill(n - left, c) + [c] == Fill(n - left + 1, c);
      left := left - 1;
    }
  }

  /** `prints`. */
  method Prints(dest: Dest, buf: array<char>, start: nat, ghost s: string, width0: nat, pad: Pad)
    requires IsString(buf[..], start, s)
    modifies dest
    ensures dest.text == old(dest.text) + Padded(s, width0, pad)
  {
    var width := width0;
    if width > 0 {
      var len := Length(buf, start, s);
      width := if len >= width then 0 else width - len;
    }
    assert width == if width0 > |s| then width0 - |s| else 0;
    var padchar := PadChar(pad);
    if !pad.right {
      PutFill(dest, width, padchar);
      width := 0;
    }
    PutString(dest, buf, start, s);
    PutFill(dest, width, padchar);
    assert pad.right ==> dest.text == old(dest.text) + (s + Fill(width, padchar));
  }

  method Length(buf: array<char>, start: nat, ghost s: string) returns (len: nat)
    requires IsString(buf[..], start, s)
    ensures len == |s|
  {
    len := 0;
    CharsAre(buf[..], start, s);
    while buf[start + len] != 0 as char
      invariant 0 <= len <= |s|
      decreases |s| - len
    {
      len := len + 1;
    }
  }

  method PutString(dest: Dest, buf: array<char>, start: nat, ghost s: string)
    requires IsString(buf[..], start, s)
    modifies dest
    ensures dest.text == old(dest.text) + s
  {
    var at := start;
    assert s[..0] == "";
    CharsAre(buf[..], start, s);
    while buf[at] != 0 as char
      invariant start <= at <= start + |s| && dest.text == old(dest.text) + s[..at - start]
      decreases start + |s| - at
    {
      dest.Put(buf[at]);
      assert s[..at - start + 1] == s[..at - start] + [buf[at]];
      at := at + 1;
    }
    assert s[..|s|] == s;
  }

  /** `printi`. */
  method Printi(dest: Dest, i: Int32, b: nat, sg: bool, width: nat, pad: Pad, letbase: char)
    requires Base(b) && Letter(letbase)
    modifies dest
    ensures dest.text == old(dest.text) + Printed(i, b, sg, width, pad, letbase)
  {
    hide Padded, Digits;
    var printBuf := new char[PRINT_BUF_LEN];
    if i == 0 {
      printBuf[0], printBuf[1] := '0', 0 as char;
      Prints(dest, printBuf, 0, "0", width, pad);
      return;
    }
    var neg := Negative(i, b, sg);
    var u: nat := Magnitude(i, b, sg);
    ghost var digits := Digits(u, b, letbase);
    var s := StoreDigits(printBuf, u, b, letbase);
    if neg {
      if width != 0 && pad.zero {
        dest.Put('-');
        Prints(dest, printBuf, s, digits, width - 1, pad);
        return;
      }
      s := s - 1;
      printBuf[s] := '-';
      Prepended(printBuf, s, digits);
      Prints(dest, printBuf, s, "-" + digits, width, pad);
    } else {
      Prints(dest, printBuf, s, digits, width, pad);
    }
  }

  lemma Prepended(buf: array<char>, s: nat, digits: string)
    requires s + 1 + |digits| < buf.Length && buf[s + 1..][..|digits|] == digits && buf[s] == '-'
    requires buf[s + 1 + |digits|] == 0 as char && 0 as char !in digits
    ensures IsString(buf[..], s, "-" + digits)
  {
    assert buf[..][s..s + 1 + |digits|] == [buf[s]] + buf[s + 1..][..|digits|];
  }

  /** Fills the buffer backwards; the digits always fit, with room for a sign. */
  method StoreDigits(printBuf: array<char>, u0: U32, b: nat, letbase: char) returns (s: nat)
    requires printBuf.Length == PRINT_BUF_LEN && Base(b) && Letter(letbase)
    modifies printBuf
    ensures 1 <= s && s + |Digits(u0, b, letbase)| == PRINT_BUF_LEN - 1
    ensures IsString(printBuf[..], s, Digits(u0, b, letbase))
    ensures printBuf[s..][..|Digits(u0, b, letbase)|] == Digits(u0, b, letbase)
  {
    hide Digit;
    var u: nat := u0;
    s := PRINT_BUF_LEN - 1;
    printBuf[s] := 0 as char;
    DigitsFit(u0, b, letbase);
    assert printBuf[s..11] == "";
    while u != 0
      invariant 1 <= s <= 11 && |Digits(u, b, letbase)| + 1 <= s
      invariant printBuf[11] == 0 as char
      invariant Digits(u0, b, letbase) == Digits(u, b, letbase) + printBuf[s..11]
      decreases u
    {
      Division(u, b);
      var t := Remainder(u, b);
      ghost var rest := printBuf[s..11];
      s := s - 1;
      printBuf[s] := Digit(t, letbase);
      assert printBuf[s..11] == [Digit(t, letbase)] + rest;
      u := Quotient(u, b);
    }
    NoNul(u0, b, letbase);
    assert printBuf[..][s..11] == printBuf[s..11];
  }

  lemma {:induction false} NoNul(u: nat, b: nat, letbase: char)
    requires Base(b) && Letter(letbase)
    ensures 0 as char !in Digits(u, b, letbase) && '-' !in Digits(u, b, letbase) && ' ' !in Digits(u, b, letbase)
  {
    if u > 0 {
      Division(u, b);
      NoNul(Quotient(u, b), b, letbase);
    }
  }

  /** Ten digits hold every 32-bit number. */
  lemma DigitsFit(u: U32, b: nat, letbase: char)
    requires Base(b) && Letter(letbase)
    ensures |Digits(u, b, letbase)| <= 10
  {
    DigitCount(u, 10, b, letbase);
  }

  function Power10(n: nat): nat { if n == 0 then 1 else 10 * Power10(n - 1) }

  lemma {:induction false} DigitCount(u: nat, n: nat, b: nat, letbase: char)
    requires Base(b) && Letter(letbase) && u < Power10(n)
    ensures |Digits(u, b, letbase)| <= n
  {
    if u > 0 {
      Division(u, b);
      DigitCount(Quotient(u, b), n - 1, b, letbase);
    }
  }

  // Reading numbers back

  function DigitValue(c: char): Option<nat> {
    if '0' <= c <= '9' then Some((c - '0') as nat)
    else if 'a' <= c <= 'f' then Some((c - 'a') as nat + 10)
    else if 'A' <= c <= 'F' then Some((c - 'A') as nat + 10)
    else None
  }

  function Value(s: string, b: nat): Option<nat>
    requires Base(b)
    decreases |s|
  {
    if s == "" then Some(0)
    else Extend(Value(s[..|s| - 1], b), DigitValue(s[|s| - 1]), b)
  }

  /** One more digit. */
  function Extend(v: Option<nat>, d: Option<nat>, b: nat): Option<nat>
    requires Base(b)
  {
    if v.Some? && d.Some? && d.value < b then Some(Times(v.value, b) + d.value) else None
  }

  function TrimLeft(s: string): string
    decreases |s|
  {
    if s != "" && s[0] == ' ' then TrimLeft(s[1..]) else s
  }

  function TrimRight(s: string): string
    decreases |s|
  {
    if s != "" && s[|s| - 1] == ' ' then TrimRight(s[..|s| - 1]) else s
  }

  /** A number with optional spaces around it and an optional minus sign. */
  function Parse(s: string, b: nat): Option<int>
    requires Base(b)
  {
    var t := TrimRight(TrimLeft(s));
    if t == "" then None
    else if t[0] == '-' then (if Value(t[1..], b).Some? then Some(-(Value(t[1..], b).value as int)) else None)
    else if Value(t, b).Some? then Some(Value(t, b).value as int)
    else None
  }

  lemma DigitBack(t: nat, letbase: char)
    requires t < 16 && Letter(letbase)
    ensures DigitValue(Digit(t, letbase)) == Some(t)
  {
  }

  lemma ValueMore(s: string, c: char, b: nat)
    requires Base(b)
    ensures Value(s + [c], b) == Extend(Value(s, b), DigitValue(c), b)
  {
    assert (s + [c])[..|s|] == s;
  }

  lemma {:induction false} DigitsValue(u: nat, b: nat, letbase: char)
    requires Base(b) && Letter(letbase)
    ensures Value(Digits(u, b, letbase), b) == Some(u)
  {
    hide Digit, DigitValue, Value;
    if u > 0 {
      Division(u, b);
      var q, t := Quotient(u, b), Remainder(u, b);
      DigitsValue(q, b, letbase);
      DigitBack(t, letbase);
      ValueMore(Digits(q, b, letbase), Digit(t, letbase), b);
    } else {
      NoValue(b);
    }
  }

  lemma NoValue(b: nat)
    requires Base(b)
    ensures Value("", b) == Some(0)
  {
  }

  lemma {:induction false} LeadingZeros(n: nat, s: string, b: nat)
    requires Base(b)
    ensures Value(Fill(n, '0') + s, b) == Value(s, b)
    decreases n, |s|
  {
    hide Times;
    if s == "" {
      if n == 0 {
        assert Fill(0, '0') + s == "";
      } else {
        LeadingZeros(n - 1, "", b);
        assert Fill(n, '0') + "" == (Fill(n - 1, '0') + "") + "0";
        ValueMore(Fill(n - 1, '0') + "", '0', b);
        TimesZero(b);
      }
    } else {
      var m := |s| - 1;
      LeadingZeros(n, s[..m], b);
      assert Fill(n, '0') + s == (Fill(n, '0') + s[..m]) + [s[m]];
      ValueMore(Fill(n, '0') + s[..m], s[m], b);
    }
  }

  lemma TimesZero(b: nat)
    requires Base(b)
    ensures Times(0, b) == 0
  {
  }

  lemma TimesGrows(w: nat, b: nat)
    requires Base(b)
    ensures if w == 0 then Times(w, b) == 0 else Times(w, b) > w
  {
  }

  /** Zeros after a positive number change it, after 0 they do not. */
  lemma {:induction false} TrailingZeros(s: string, n: nat, b: nat) returns (w: nat)
    requires Base(b) && Value(s, b).Some?
    ensures Value(s + Fill(n, '0'), b) == Some(w)
    ensures if n == 0 || Value(s, b) == Some(0) then Value(s, b) == Some(w) else w > Value(s, b).value
    decreases n
  {
    hide Times, Value;
    if n == 0 {
      assert s + Fill(0, '0') == s;
      w := Value(s, b).value;
    } else {
      w := TrailingZeros(s, n - 1, b);
      TimesGrows(w, b);
      assert s + Fill(n, '0') == (s + Fill(n - 1, '0')) + "0";
      ValueMore(s + Fill(n - 1, '0'), '0', b);
      w := Times(w, b);
    }
  }

  lemma {:induction false} SpacesLeft(n: nat, s: string)
    requires s != "" && s[0] != ' '
    ensures TrimLeft(Fill(n, ' ') + s) == s
    decreases n
  {
    if n == 0 {
      assert Fill(0, ' ') + s == s;
    } else {
      assert (Fill(n, ' ') + s)[1..] == Fill(n - 1, ' ') + s;
      SpacesLeft(n - 1, s);
    }
  }

  lemma {:induction false} SpacesRight(s: string, n: nat)
    requires s != "" && s[|s| - 1] != ' '
    ensures TrimRight(s + Fill(n, ' ')) == s
    decreases n
  {
    if n == 0 {
      assert s + Fill(0, ' ') == s;
    } else {
      assert (s + Fill(n, ' '))[..|s| + n - 1] == s + Fill(n - 1, ' ');
      SpacesRight(s, n - 1);
    }
  }

  /** The text without padding. */
  function Natural(i: Int32, b: nat, sg: bool, letbase: char): (s: string)
    requires Base(b) && Letter(letbase)
  {
    if i == 0 then "0" else (if Negative(i, b, sg) then "-" else "") + Digits(Magnitude(i, b, sg), b, letbase)
  }

  /** The number a reader should get: `%u` and `%x` show the unsigned value. */
  function Meant(i: Int32, b: nat, sg: bool): int { if sg && b == 10 then i else Unsigned(i) }

  /** The output is as long as the natural text or the width, whichever is more. */
  lemma PrintedLength(i: Int32, b: nat, sg: bool, width: nat, pad: Pad, letbase: char)
    requires Base(b) && Letter(letbase)
    ensures var n := |Natural(i, b, sg, letbase)|;
      |Printed(i, b, sg, width, pad, letbase)| == (if width > n then width else n) && 1 <= n <= PRINT_BUF_LEN - 1
  {
    DigitsFit(Magnitude(i, b, sg), b, letbase);
  }

  function Sign(neg: bool): string { if neg then "-" else "" }

  /** The digits printed, also for 0. */
  function Body(i: Int32, b: nat, sg: bool, letbase: char): string
    requires Base(b) && Letter(letbase)
  {
    if i == 0 then "0" else Digits(Magnitude(i, b, sg), b, letbase)
  }

  /** How much padding there is. */
  function Room(i: Int32, b: nat, sg: bool, width: nat, letbase: char): nat
    requires Base(b) && Letter(letbase)
  {
    var n := |Natural(i, b, sg, letbase)|;
    if width > n then width - n else 0
  }

  /** Zeros go between the sign and the digits, or after the digits; spaces go outside. */
  lemma PrintedParts(i: Int32, b: nat, sg: bool, width: nat, pad: Pad, letbase: char)
    requires Base(b) && Letter(letbase)
    ensures var sign, body, room := Sign(Negative(i, b, sg)), Body(i, b, sg, letbase), Room(i, b, sg, width, letbase);
      Printed(i, b, sg, width, pad, letbase) ==
        if pad.zero then sign + (if pad.right then body + Fill(room, '0') else Fill(room, '0') + body)
        else if pad.right then sign + body + Fill(room, ' ')
        else Fill(room, ' ') + (sign + body)
  {
    hide Digits, Fill;
    var body, room := Body(i, b, sg, letbase), Room(i, b, sg, width, letbase);
    NothingAdded(body);
    NothingAdded("-" + body);
    NothingAdded(body + Fill(room, '0'));
    NothingAdded(Fill(room, '0') + body);
  }

  lemma NothingAdded(s: string)
    ensures "" + s == s && Fill(0, '0') + s == s && s + Fill(0, '0') == s
  {
  }

  /** A number begins and ends with a digit. */
  predicate Numeral(s: string) {
    s != "" && s[0] != ' ' && s[0] != '-' && s[|s| - 1] != ' '
  }

  lemma BodyIsNumeral(i: Int32, b: nat, sg: bool, letbase: char)
    requires Base(b) && Letter(letbase)
    ensures Numeral(Body(i, b, sg, letbase)) && Value(Body(i, b, sg, letbase), b) == Some(Magnitude(i, b, sg) as nat)
  {
    var u := Magnitude(i, b, sg);
    DigitsValue(u, b, letbase);
    NoNul(u, b, letbase);
    if i == 0 {
      ValueMore("", '0', b);
      assert "" + "0" == "0";
    } else {
      var d := Digits(u, b, letbase);
      assert d != "";
      assert d[0] in d && d[|d| - 1] in d;
    }
  }

  /** Surrounding spaces do not matter. */
  lemma ParseSpaces(s: string, n: nat, b: nat)
    requires Base(b) && s != "" && s[0] != ' ' && s[|s| - 1] != ' '
    ensures Parse(Fill(n, ' ') + s, b) == Parse(s, b) && Parse(s + Fill(n, ' '), b) == Parse(s, b)
  {
    SpacesLeft(n, s);
    SpacesRight(s, n);
    assert (s + Fill(n, ' '))[0] == s[0];
  }

  lemma ParseSigned(neg: bool, s: string, b: nat)
    requires Base(b) && Numeral(s) && Value(s, b).Some?
    ensures Parse(Sign(neg) + s, b) == Some(if neg then -(Value(s, b).value as int) else Value(s, b).value as int)
  {
    var t := Sign(neg) + s;
    assert t[|t| - 1] == s[|s| - 1];
    if neg {
      assert t[1..] == s;
    } else {
      assert t == s;
    }
  }

  lemma ZerosBefore(neg: bool, body: string, room: nat, b: nat)
    requires Base(b) && Numeral(body) && Value(body, b).Some?
    ensures Parse(Sign(neg) + (Fill(room, '0') + body), b) == Parse(Sign(neg) + body, b)
  {
    hide Parse, Value;
    var zeros := Fill(room, '0') + body;
    assert zeros[|zeros| - 1] == body[|body| - 1] && (room == 0 ==> zeros == body);
    LeadingZeros(room, body, b);
    ParseSigned(neg, zeros, b);
    ParseSigned(neg, body, b);
  }

  lemma ZerosBehind(neg: bool, body: string, room: nat, b: nat)
    requires Base(b) && Numeral(body) && Value(body, b).Some?
    ensures Parse(Sign(neg) + (body + Fill(room, '0')), b) == Parse(Sign(neg) + body, b)
      <==> room == 0 || Value(body, b) == Some(0)
  {
    hide Parse, Value;
    var zeros := body + Fill(room, '0');
    assert zeros[0] == body[0] && (room == 0 ==> zeros == body);
    var w := TrailingZeros(body, room, b);
    ParseSigned(neg, zeros, b);
    ParseSigned(neg, body, b);
  }

  /** The natural text reads back as the number. */
  lemma NaturalParses(i: Int32, b: nat, sg: bool, letbase: char)
    requires Base(b) && Letter(letbase)
    ensures Parse(Sign(Negative(i, b, sg)) + Body(i, b, sg, letbase), b) == Some(Meant(i, b, sg))
  {
    hide Parse, Value, Digits, Body;
    BodyIsNumeral(i, b, sg, letbase);
    ParseSigned(Negative(i, b, sg), Body(i, b, sg, letbase), b);
  }

  lemma NumeralEnds(neg: bool, s: string)
    requires Numeral(s)
    ensures Sign(neg) + s != "" && (Sign(neg) + s)[0] != ' ' && (Sign(neg) + s)[|Sign(neg) + s| - 1] != ' '
  {
  }

  /** Printing and reading back gives the number, except where zeros are added after its digits. */
  lemma RoundTrip(i: Int32, b: nat, sg: bool, width: nat, pad: Pad, letbase: char)
    requires Base(b) && Letter(letbase)
    ensures Parse(Printed(i, b, sg, width, pad, letbase), b) == Some(Meant(i, b, sg))
      <==> i == 0 || !(pad.right && pad.zero && width > |Natural(i, b, sg, letbase)|)
  {
    hide Printed, Parse, Value, Digits, TrimLeft, TrimRight, Body, Fill, Natural, Numeral, Sign;
    var neg, body, room := Negative(i, b, sg), Body(i, b, sg, letbase), Room(i, b, sg, width, letbase);
    PrintedParts(i, b, sg, width, pad, letbase);
    NaturalParses(i, b, sg, letbase);
    BodyIsNumeral(i, b, sg, letbase);
    if !pad.zero {
      NumeralEnds(neg, body);
      ParseSpaces(Sign(neg) + body, room, b);
    } else if pad.right {
      ZerosBehind(neg, body, room, b);
    } else {
      ZerosBefore(neg, body, room, b);
    }
  }

  /** With the format "%-02d" the number 1 is printed as 10. */
  lemma OneBecomesTen(pad: Pad)
    requires pad == Pad(true, true)
    ensures Printed(1, 10, true, 2, pad, 'a') == "10"
    ensures Parse(Printed(1, 10, true, 2, pad, 'a'), 10) == Some(10) && Meant(1, 10, true) == 1
  {
    hide Parse;
    var one := Digits(1, 10, 'a');
    assert one == "1" by { OneDigit(); }
    assert Fill(1, '0') == "0" && Padded(one, 2, pad) == "10";
    ParsesAsTen();
  }

  lemma OneDigit()
    ensures Digits(1, 10, 'a') == "1"
  {
    assert Digits(0, 10, 'a') == "";
    assert Quotient(1, 10) == 0 && Remainder(1, 10) == 1;
  }

  lemma ParsesAsTen()
    ensures Parse("10", 10) == Some(10)
  {
    var s := "10";
    assert s[..1] == "1" && s[..1][..0] == "";
    assert Value("", 10) == Some(0) && Value("1", 10) == Some(1) && Value(s, 10) == Some(10);
    assert TrimRight(TrimLeft(s)) == s;
  }

  // Which characters are printed

  /** A digit of the base, the letters from `letbase` on. */
  predicate IsDigit(c: char, b: nat, letbase: char) {
    '0' <= c <= '9' || (b == 16 && letbase as int <= c as int <= letbase as int + 5)
  }

  lemma DigitIs(t: nat, b: nat, letbase: char)
    requires Base(b) && t < b && Letter(letbase)
    ensures IsDigit(Digit(t, letbase), b, letbase)
  {
  }

  /** `%x` prints letters from 'a' and `%X` from 'A', and decimal numbers have none. */
  lemma {:induction false} DigitsAre(u: nat, b: nat, letbase: char)
    requires Base(b) && Letter(letbase)
    ensures forall i :: 0 <= i < |Digits(u, b, letbase)| ==> IsDigit(Digits(u, b, letbase)[i], b, letbase)
  {
    hide Digit, IsDigit;
    if u > 0 {
      Division(u, b);
      DigitsAre(Quotient(u, b), b, letbase);
      DigitIs(Remainder(u, b), b, letbase);
    }
  }

  /** Without leading zeros. */
  lemma {:induction false} FirstDigit(u: nat, b: nat, letbase: char)
    requires Base(b) && Letter(letbase) && u > 0
    ensures Digits(u, b, letbase) != "" && Digits(u, b, letbase)[0] != '0'
  {
    hide Digit;
    Division(u, b);
    var q, t := Quotient(u, b), Remainder(u, b);
    if q > 0 {
      FirstDigit(q, b, letbase);
    } else {
      LeadingDigit(u, b, letbase);
      assert Digits(0, b, letbase) == "" && Digits(u, b, letbase) == "" + [Digit(t, letbase)];
    }
  }

  lemma LeadingDigit(u: nat, b: nat, letbase: char)
    requires Base(b) && Letter(letbase) && u > 0 && Quotient(u, b) == 0
    ensures Digit(Remainder(u, b), letbase) != '0'
  {
  }

  /** Nothing but digits, a minus sign, zeros and spaces is printed, and a minus only for `%d`. */
  lemma PrintedAre(i: Int32, b: nat, sg: bool, width: nat, pad: Pad, letbase: char)
    requires Base(b) && Letter(letbase)
    ensures forall c :: c in Printed(i, b, sg, width, pad, letbase) ==>
      IsDigit(c, b, letbase) || (c == ' ' && !pad.zero) || (c == '-' && sg && b == 10 && i < 0)
    ensures sg && b == 10 && i < 0 ==> '-' in Printed(i, b, sg, width, pad, letbase)
  {
    hide Digits, Fill;
    DigitsAre(Magnitude(i, b, sg), b, letbase);
    PrintedParts(i, b, sg, width, pad, letbase);
  }
}
