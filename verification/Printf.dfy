/** Integer conversions of lib/stdio.c, vsnprintf()'s buffer, and atoi() of lib/stdlib.c. */
module Printf {
  import opened Basics

  /** A conversion after parse_conversion(): flags, width, and precision or -1. */
  datatype Conversion = Conversion(minus: bool, plus: bool, space: bool, pound: bool, zero: bool, group: bool, width: nat, precision: int)

  /** The four struct integer_base. */
  datatype Base = Decimal | Octal | Hex | UpperHex

  /** value / base */
  function Over(value: nat, b: Base): (r: nat)
    ensures r <= value / 8 && (value > 0 ==> r < value)
  {
    match b
    case Decimal => value / 10
    case Octal => value / 8
    case Hex => value / 16
    case UpperHex => value / 16
  }

  /** value % base */
  function LowDigit(value: nat, b: Base): (r: nat)
    ensures r < 16
  {
    match b
    case Decimal => value % 10
    case Octal => value % 8
    case Hex => value % 16
    case UpperHex => value % 16
  }

  /** How many digits the ' flag groups. */
  function GroupSize(b: Base): (r: nat)
    ensures r > 0
  {
    if b.Hex? || b.UpperHex? then 4 else 3
  }

  /** Element k of the base's string of digits. */
  function DigitChar(b: Base, k: nat): char
    requires k < 16
  {
    if k < 10 then '0' + k as char else if b.Hex? then 'a' + (k - 10) as char else 'A' + (k - 10) as char
  }

  function Repeat(ch: char, n: nat): (s: string)
    ensures |s| == n && forall i :: 0 <= i < n ==> s[i] == ch
  {
    if n == 0 then [] else Repeat(ch, n - 1) + [ch]
  }

  function Reversed(s: string): (r: string)
    ensures |r| == |s|
  {
    if s == [] then [] else Reversed(s[1..]) + [s[0]]
  }

  // ----- what a conversion prints ---------------------------------------------------------------

  /** The digits of value, lowest first, with commas if c groups; cnt digits precede them. */
  function Digits(value: nat, cnt: nat, b: Base, group: bool): string
    decreases value
  {
    if value == 0 then []
    else (if group && cnt > 0 && cnt % GroupSize(b) == 0 then [','] else []) + [DigitChar(b, LowDigit(value, b))] + Digits(Over(value, b), cnt + 1, b, group)
  }

  /** The buffer of format_integer() when it is complete: digits, zeros up to the precision, and
      the zero that the # flag demands in octal; lowest digit first. */
  function Buffer(value: nat, b: Base, c: Conversion): string
  {
    Completed(Digits(value, 0, b, c.group), b, c)
  }

  function Completed(d: string, b: Base, c: Conversion): string {
    var precision := if c.precision < 0 then 1 else if c.precision > 63 then 63 else c.precision;
    var z := d + Repeat('0', if |d| < precision then precision - |d| else 0);
    if c.pound && b.Octal? && (z == [] || z[|z| - 1] != '0') then z + ['0'] else z
  }

  function Sign(isSigned: bool, negative: bool, c: Conversion): string {
    if !isSigned then []
    else if c.plus then (if negative then ['-'] else ['+'])
    else if c.space then (if negative then ['-'] else [' '])
    else if negative then ['-'] else []
  }

  function Prefix(value: nat, b: Base, c: Conversion): string {
    if c.pound && value > 0 && b.Hex? then ['0', 'x'] else if c.pound && value > 0 && b.UpperHex? then ['0', 'X'] else []
  }

  /** The number of characters without padding. */
  function Natural(value: nat, isSigned: bool, negative: bool, b: Base, c: Conversion): nat
  {
    |Sign(isSigned, negative, c)| + |Prefix(value, b, c)| + |Buffer(value, b, c)|
  }

  function Pad(natural: nat, width: nat): nat {
    if natural < width then width - natural else 0
  }

  /** Padding that is output in one of three places. */
  function Padding(when: bool, ch: char, pad: nat): string {
    if when then Repeat(ch, pad) else []
  }

  /** A field: sign, prefix and the buffer reversed, padded to c's width. */
  function Field(sign: string, x: string, buffer: string, c: Conversion): string {
    var pad := Pad(|sign| + |x| + |buffer|, c.width);
    Padding(!c.minus && !c.zero, ' ', pad) + sign + x + Padding(c.zero, '0', pad) + Reversed(buffer) + Padding(c.minus, ' ', pad)
  }

  /** The characters that format_integer() outputs. */
  function Rendered(value: nat, isSigned: bool, negative: bool, b: Base, c: Conversion): string {
    Field(Sign(isSigned, negative, c), Prefix(value, b, c), Buffer(value, b, c), c)
  }

  /** A field is as wide as asked for, or as its contents if they are wider, unless the conversion
      pads on both sides. */
  lemma RenderedLength(value: nat, isSigned: bool, negative: bool, b: Base, c: Conversion)
    ensures var n := Natural(value, isSigned, negative, b, c);
      |Rendered(value, isSigned, negative, b, c)| == n + (if c.minus && c.zero then 2 else 1) * Pad(n, c.width)
    ensures !(c.minus && c.zero) ==> var n := Natural(value, isSigned, negative, b, c);
      |Rendered(value, isSigned, negative, b, c)| == if n < c.width then c.width else n
  {
  }

  // ----- format_integer() -------------------------------------------------------------------------

  function Pow8(k: nat): nat {
    if k == 0 then 1 else 8 * Pow8(k - 1)
  }

  /** Each digit takes at most two characters. */
  lemma {:induction false} DigitsBound(value: nat, cnt: nat, b: Base, group: bool, k: nat)
    requires value < Pow8(k)
    ensures |Digits(value, cnt, b, group)| <= 2 * k
    decreases k
  {
    if value > 0 {
      DigitsBound(Over(value, b), cnt + 1, b, group, k - 1);
    }
  }

  lemma DigitsFit(value: nat, b: Base, group: bool)
    requires value < 0x1_0000_0000_0000_0000
    ensures |Digits(value, 0, b, group)| <= 44
  {
    assert Pow8(4) == 0x1000 && Pow8(8) == 0x100_0000;
    Pow8Values();
    DigitsBound(value, 0, b, group, 22);
  }

  lemma Pow8Values()
    ensures Pow8(22) > 0x1_0000_0000_0000_0000
  {
    var a := Pow8(8);
    assert a == 0x100_0000;
    var b := Pow8(12);
    assert b == 8 * (8 * (8 * (8 * a)));
    var c := Pow8(16);
    assert c == 8 * (8 * (8 * (8 * b)));
    var d := Pow8(20);
    assert d == 8 * (8 * (8 * (8 * c)));
  }

  /** What one turn of the digit loop stores. */
  function Chunk(value: nat, cnt: nat, b: Base, group: bool): (r: string)
    ensures 1 <= |r| <= 2
  {
    (if group && cnt > 0 && cnt % GroupSize(b) == 0 then [','] else []) + [DigitChar(b, LowDigit(value, b))]
  }

  lemma DigitsStep(value: nat, cnt: nat, b: Base, group: bool)
    requires value > 0
    ensures Over(value, b) < value
    ensures Digits(value, cnt, b, group) == Chunk(value, cnt, b, group) + Digits(Over(value, b), cnt + 1, b, group)
  {
  }

  method StoreChunk(buf: array<char>, cp: nat, value: nat, cnt: nat, b: Base, group: bool) returns (cp': nat)
    requires cp + 2 <= buf.Length
    modifies buf
    ensures cp < cp' <= cp + 2 && buf[..cp'] == old(buf[..cp]) + Chunk(value, cnt, b, group)
  {
    cp' := cp;
    if group && cnt > 0 && cnt % GroupSize(b) == 0 {
      buf[cp'] := ',';
      cp' := cp' + 1;
    }
    buf[cp'] := DigitChar(b, LowDigit(value, b));
    cp' := cp' + 1;
  }

  /** The digit loop of format_integer().  Every store is inside the 64 characters. */
  method StoreDigits(buf: array<char>, value: nat, b: Base, group: bool) returns (cp: nat)
    requires buf.Length == 64 && value < 0x1_0000_0000_0000_0000
    modifies buf
    ensures cp <= 44 && buf[..cp] == Digits(value, 0, b, group)
  {
    cp := 0;
    var v: nat, cnt: nat := value, 0;
    DigitsFit(value, b, group);
    while v > 0
      invariant cp <= 44 && buf[..cp] + Digits(v, cnt, b, group) == Digits(value, 0, b, group)
      decreases v
    {
      DigitsStep(v, cnt, b, group);
      ghost var was, chunk, rest := buf[..cp], Chunk(v, cnt, b, group), Digits(Over(v, b), cnt + 1, b, group);
      assert was + (chunk + rest) == was + chunk + rest;
      cp := StoreChunk(buf, cp, v, cnt, b, group);
      v, cnt := Over(v, b), cnt + 1;
    }
    assert Digits(v, cnt, b, group) == [];
  }

  /** The zeros that format_integer() appends to the digits in its buffer. */
  method StoreZeros(buf: array<char>, start: nat, b: Base, c: Conversion) returns (cp: nat)
    requires buf.Length == 64 && start <= 44
    modifies buf
    ensures start <= cp <= 64 && buf[..cp] == Completed(old(buf[..start]), b, c)
  {
    cp := start;
    var precision := if c.precision < 0 then 1 else c.precision;
    while cp < precision && cp < 63
      invariant start <= cp <= 63 && (cp > start ==> cp <= precision)
      invariant buf[..cp] == old(buf[..start]) + Repeat('0', cp - start)
    {
      buf[cp] := '0';
      cp := cp + 1;
    }
    if c.pound && b.Octal? && (cp == 0 || buf[cp - 1] != '0') {
      buf[cp] := '0';
      cp := cp + 1;
    }
  }

  /** output_dup() to a string, if the flags ask for it. */
  method OutputDup(out: string, when: bool, ch: char, cnt: nat) returns (r: string)
    ensures r == out + Padding(when, ch, cnt)
  {
    r := out;
    if when {
      var i := 0;
      while i < cnt
        invariant 0 <= i <= cnt && r == out + Repeat(ch, i)
      {
        r := r + [ch];
        i := i + 1;
      }
    }
  }

  /** The output of the buffer, last character first. */
  method OutputBuffer(out: string, buf: array<char>, cp: nat) returns (r: string)
    requires cp <= buf.Length
    ensures r == out + Reversed(buf[..cp])
  {
    r := out;
    var k := cp;
    while k > 0
      invariant 0 <= k <= cp && r + Reversed(buf[..k]) == out + Reversed(buf[..cp])
    {
      ReversedLast(buf[..k]);
      assert buf[..k][..k - 1] == buf[..k - 1];
      k := k - 1;
      r := r + [buf[k]];
    }
  }

  lemma {:induction false} ReversedLast(s: string)
    requires s != []
    ensures Reversed(s) == [s[|s| - 1]] + Reversed(s[..|s| - 1])
  {
    if |s| > 1 {
      ReversedLast(s[1..]);
      assert s[1..][..|s| - 2] == s[..|s| - 1][1..];
    }
  }

  /** The output part of format_integer(). */
  method OutputField(sign: string, x: string, buf: array<char>, cp: nat, c: Conversion) returns (out: string)
    requires cp <= buf.Length
    ensures out == Field(sign, x, buf[..cp], c)
  {
    var pad := Pad(|sign| + |x| + cp, c.width);
    out := OutputDup([], !c.minus && !c.zero, ' ', pad);
    out := out + sign + x;
    out := OutputDup(out, c.zero, '0', pad);
    out := OutputBuffer(out, buf, cp);
    out := OutputDup(out, c.minus, ' ', pad);
  }

  /** format_integer(): what it outputs for any 64-bit value.  Its buffer is never overrun. */
  method FormatInteger(value: nat, isSigned: bool, negative: bool, b: Base, c: Conversion) returns (out: string)
    requires value < 0x1_0000_0000_0000_0000
    ensures out == Rendered(value, isSigned, negative, b, c)
  {
    var buf := new char[64];
    var cp := StoreDigits(buf, value, b, c.group);
    cp := StoreZeros(buf, cp, b, c);
    out := OutputField(Sign(isSigned, negative, c), Prefix(value, b, c), buf, cp, c);
  }

  // ----- vsnprintf() ------------------------------------------------------------------------------------

  /** vsnprintf() and its helper, for the characters s that the format yields: the buffer holds as many
      of them as fit, and a terminator, and the result is how many there are. */
  method Vsnprintf(buffer: array<char>, size: nat, s: string) returns (length: nat)
    requires size <= buffer.Length
    modifies buffer
    ensures length == |s|
    ensures var n := if size == 0 then 0 else if |s| < size then |s| else size - 1;
      && buffer[..n] == s[..n] && (size > 0 ==> buffer[n] == '\0')
      && forall i :: n < i < buffer.Length || size == 0 <= i < buffer.Length ==> buffer[i] == old(buffer[i])
  {
    var p := 0;
    var max := if size > 0 then size - 1 else 0;
    length := 0;
    while length < |s|
      invariant 0 <= length <= |s| && p == (if length < max then length else max)
      invariant buffer[..p] == s[..p] && forall i :: p <= i < buffer.Length ==> buffer[i] == old(buffer[i])
    {
      if length < max {
        buffer[p] := s[length];
        p := p + 1;
      }
      length := length + 1;
    }
    if size > 0 { buffer[p] := '\0'; }
  }

  // ----- atoi() -------------------------------------------------------------------------------------------

  predicate IsSpace(ch: char) {
    ch == ' ' || ch == '\n' || ch == '\r' || ch == '\t' || ch == 11 as char || ch == 12 as char
  }

  predicate IsDigit(ch: char) {
    '0' <= ch <= '9'
  }

  function SkipSpaces(s: string): string {
    if s != [] && IsSpace(s[0]) then SkipSpaces(s[1..]) else s
  }

  /** The digit loop of atoi(), from the negative value v; none if an int overflows. */
  function Accumulate(s: string, v: int): Option<int> {
    if s == [] || !IsDigit(s[0]) then Some(v)
    else
      var w := v * 10 - (s[0] as int - '0' as int);
      if w < -0x8000_0000 then None else Accumulate(s[1..], w)
  }

  function Negated(v: Option<int>, negative: bool): Option<int> {
    if v.None? || negative then v else if v.value == -0x8000_0000 then None else Some(-v.value)
  }

  /** atoi() */
  function Atoi(s: string): Option<int> {
    var t := SkipSpaces(s);
    if t != [] && t[0] == '+' then Negated(Accumulate(t[1..], 0), false)
    else if t != [] && t[0] == '-' then Negated(Accumulate(t[1..], 0), true)
    else Negated(Accumulate(t, 0), false)
  }

  /** The digit loop of atoi(), over s from i on. */
  method ReadDigits(s: string, start: nat) returns (r: Option<int>)
    requires start <= |s|
    ensures r == Accumulate(s[start..], 0)
  {
    var i, v := start, 0;
    while i < |s| && IsDigit(s[i])
      invariant start <= i <= |s| && Accumulate(s[i..], v) == Accumulate(s[start..], 0)
      decreases |s| - i
    {
      assert s[i..][1..] == s[i + 1..];
      v := v * 10 - (s[i] as int - '0' as int);
      if v < -0x8000_0000 { return None; }
      i := i + 1;
    }
    r := Some(v);
  }

  /** atoi(), with its two loops. */
  method ReadInt(s: string) returns (r: Option<int>)
    ensures r == Atoi(s)
  {
    var i := 0;
    while i < |s| && IsSpace(s[i])
      invariant 0 <= i <= |s| && SkipSpaces(s[i..]) == SkipSpaces(s)
      decreases |s| - i
    {
      assert s[i..][1..] == s[i + 1..];
      i := i + 1;
    }
    assert s[i..] == SkipSpaces(s);
    var negative := false;
    if i < |s| && (s[i] == '+' || s[i] == '-') {
      negative := s[i] == '-';
      assert s[i..][1..] == s[i + 1..];
      i := i + 1;
    }
    var v := ReadDigits(s, i);
    r := Negated(v, negative);
  }

  // ----- atoi() of what %d prints -----------------------------------------------------------------------------

  lemma {:induction false} ReversedJoin(a: string, b: string)
    ensures Reversed(a + b) == Reversed(b) + Reversed(a)
  {
    if a == [] {
      assert a + b == b;
    } else {
      assert (a + b)[1..] == a[1..] + b;
      ReversedJoin(a[1..], b);
    }
  }

  lemma {:induction false} ReversedRepeat(ch: char, n: nat)
    ensures Reversed(Repeat(ch, n)) == Repeat(ch, n)
  {
    if n > 0 {
      ReversedRepeat(ch, n - 1);
      ReversedJoin(Repeat(ch, n - 1), [ch]);
      assert Reversed([ch]) == [ch];
    }
  }

  lemma {:induction false} SkipPadding(n: nat, s: string)
    ensures SkipSpaces(Repeat(' ', n) + s) == SkipSpaces(s)
  {
    if n == 0 {
      assert Repeat(' ', 0) + s == s;
    } else {
      assert Repeat(' ', n) + s == Repeat(' ', n - 1) + ([' '] + s);
      SkipPadding(n - 1, [' '] + s);
      assert ([' '] + s)[1..] == s;
    }
  }

  lemma {:induction false} AccumulateZeros(n: nat, s: string)
    ensures Accumulate(Repeat('0', n) + s, 0) == Accumulate(s, 0)
  {
    if n == 0 {
      assert Repeat('0', 0) + s == s;
    } else {
      assert Repeat('0', n) + s == Repeat('0', n - 1) + (['0'] + s);
      AccumulateZeros(n - 1, ['0'] + s);
      assert (['0'] + s)[1..] == s;
    }
  }

  /** Reading the digits of m, of which none overflows if m is the size of an int. */
  lemma {:induction false} AccumulateDigits(m: int, cnt: nat, tail: string)
    requires 0 <= m <= 0x8000_0000
    ensures Accumulate(Reversed(Digits(m, cnt, Decimal, false)) + tail, 0) == Accumulate(tail, -m)
    decreases m
  {
    if m == 0 {
      assert Reversed([]) + tail == tail;
    } else {
      DigitsStep(m, cnt, Decimal, false);
      var rest, d := Digits(Over(m, Decimal), cnt + 1, Decimal, false), DigitChar(Decimal, LowDigit(m, Decimal));
      assert Chunk(m, cnt, Decimal, false) == [d];
      ReversedJoin([d], rest);
      assert Reversed([d]) == [d];
      assert Reversed([d] + rest) + tail == Reversed(rest) + ([d] + tail);
      AccumulateDigits(m / 10, cnt + 1, [d] + tail);
      assert ([d] + tail)[1..] == tail;
      assert IsDigit(d) && d as int - '0' as int == m % 10;
    }
  }

  lemma {:induction false} SpacesEnd(n: nat, v: int)
    ensures Accumulate(Repeat(' ', n), v) == Some(v) && SkipSpaces(Repeat(' ', n)) == []
  {
    SkipPadding(n, []);
    assert Repeat(' ', n) + [] == Repeat(' ', n);
  }

  /** Zeros, the digits of m, and spaces behind them. */
  function Number(m: nat, zeros: nat, spaces: nat): string {
    Repeat('0', zeros) + Reversed(Digits(m, 0, Decimal, false)) + Repeat(' ', spaces)
  }

  lemma NumberReads(m: int, zeros: nat, spaces: nat)
    requires 0 <= m <= 0x8000_0000
    ensures Accumulate(Number(m, zeros, spaces), 0) == Some(-m)
  {
    var r, t := Reversed(Digits(m, 0, Decimal, false)), Repeat(' ', spaces);
    assert Number(m, zeros, spaces) == Repeat('0', zeros) + (r + t);
    AccumulateZeros(zeros, r + t);
    AccumulateDigits(m, 0, t);
    SpacesEnd(spaces, -m);
  }

  lemma NumberSkips(m: nat, zeros: nat, spaces: nat)
    ensures var t := SkipSpaces(Number(m, zeros, spaces));
      (t == Number(m, zeros, spaces) && t != [] && IsDigit(t[0])) || (t == [] && m == 0)
  {
    var r, tail := Reversed(Digits(m, 0, Decimal, false)), Repeat(' ', spaces);
    DigitsAre(m, 0);
    if zeros == 0 && r == [] {
      assert Number(m, zeros, spaces) == tail;
      SpacesEnd(spaces, 0);
    } else {
      assert IsDigit((Repeat('0', zeros) + r)[0]);
    }
  }

  lemma {:induction false} DigitsAre(m: nat, cnt: nat)
    ensures var r := Reversed(Digits(m, cnt, Decimal, false)); (r == [] ==> m == 0) && forall i :: 0 <= i < |r| ==> IsDigit(r[i])
    decreases m
  {
    if m > 0 {
      DigitsStep(m, cnt, Decimal, false);
      var rest, d := Digits(Over(m, Decimal), cnt + 1, Decimal, false), DigitChar(Decimal, LowDigit(m, Decimal));
      assert Chunk(m, cnt, Decimal, false) == [d];
      ReversedJoin([d], rest);
      assert Reversed([d]) == [d];
      DigitsAre(m / 10, cnt + 1);
    }
  }

  lemma BufferReversed(m: nat, c: Conversion) returns (k: nat)
    requires !c.group
    ensures Reversed(Buffer(m, Decimal, c)) == Repeat('0', k) + Reversed(Digits(m, 0, Decimal, false))
  {
    var d := Digits(m, 0, Decimal, false);
    var precision := if c.precision < 0 then 1 else if c.precision > 63 then 63 else c.precision;
    k := if |d| < precision then precision - |d| else 0;
    ReversedJoin(d, Repeat('0', k));
    ReversedRepeat('0', k);
  }

  lemma FieldSplits(sign: string, buffer: string, r: string, k: nat, c: Conversion) returns (spaces: nat, zeros: nat, after: nat)
    requires Reversed(buffer) == Repeat('0', k) + r
    ensures Field(sign, [], buffer, c) == Repeat(' ', spaces) + sign + (Repeat('0', zeros) + r + Repeat(' ', after))
  {
    var pad := Pad(|sign| + |buffer|, c.width);
    spaces := if !c.minus && !c.zero then pad else 0;
    zeros := (if c.zero then pad else 0) + k;
    after := if c.minus then pad else 0;
    RepeatJoin('0', if c.zero then pad else 0, k);
    Regroup(Repeat(' ', spaces), sign, Repeat('0', if c.zero then pad else 0), Repeat('0', k), r, Repeat(' ', after));
  }

  /** Behind the sign, a decimal field is a number. */
  lemma FieldIsNumber(v: int, c: Conversion) returns (spaces: nat, zeros: nat, after: nat)
    requires !c.group
    ensures Rendered(Magnitude(v), true, v < 0, Decimal, c) ==
      Repeat(' ', spaces) + Sign(true, v < 0, c) + Number(Magnitude(v), zeros, after)
  {
    var m := Magnitude(v);
    var k := BufferReversed(m, c);
    spaces, zeros, after := FieldSplits(Sign(true, v < 0, c), Buffer(m, Decimal, c), Reversed(Digits(m, 0, Decimal, false)), k, c);
  }

  lemma Regroup(a: string, s: string, z: string, k: string, r: string, t: string)
    ensures a + s + [] + z + (k + r) + t == a + s + ((z + k) + r + t)
  {
  }

  lemma {:induction false} RepeatJoin(ch: char, a: nat, b: nat)
    ensures Repeat(ch, a) + Repeat(ch, b) == Repeat(ch, a + b)
    decreases b
  {
    if b > 0 { RepeatJoin(ch, a, b - 1); }
  }

  function Magnitude(v: int): nat {
    if v < 0 then -v else v
  }

  lemma SignedReads(v: int, c: Conversion, t: string)
    requires -0x8000_0000 <= v < 0x8000_0000 && Accumulate(t, 0) == Some(if v < 0 then v else -v)
    requires (SkipSpaces(t) == t && t != [] && IsDigit(t[0])) || (SkipSpaces(t) == [] && v == 0)
    ensures Atoi(Sign(true, v < 0, c) + t) == Some(v)
  {
    var s := Sign(true, v < 0, c);
    if s != [] { assert (s + t)[1..] == t && (s + t)[0] == s[0]; } else { assert s + t == t; }
  }

  lemma NumberIsRead(v: int, c: Conversion, zeros: nat, after: nat)
    requires -0x8000_0000 <= v < 0x8000_0000
    ensures Atoi(Sign(true, v < 0, c) + Number(Magnitude(v), zeros, after)) == Some(v)
  {
    NumberReads(Magnitude(v), zeros, after);
    NumberSkips(Magnitude(v), zeros, after);
    SignedReads(v, c, Number(Magnitude(v), zeros, after));
  }

  /** atoi() of the "%d" output is the value, for every int and every conversion that does not
      group digits. */
  lemma RoundTrip(v: int, c: Conversion)
    requires -0x8000_0000 <= v < 0x8000_0000 && !c.group
    ensures Atoi(Rendered(Magnitude(v), true, v < 0, Decimal, c)) == Some(v)
  {
    var spaces, zeros, after := FieldIsNumber(v, c);
    var sign, t := Sign(true, v < 0, c), Number(Magnitude(v), zeros, after);
    NumberIsRead(v, c, zeros, after);
    assert Repeat(' ', spaces) + sign + t == Repeat(' ', spaces) + (sign + t);
    SkipPadding(spaces, sign + t);
  }

  // ----- flags ----------------------------------------------------------------------------------------------------

  /** The end of parse_conversion(): the flags as given, the width, which a `*` may make negative, and
      the precision or -1. */
  function Settled(given: Conversion, width: int, precision: int): Conversion {
    var c := given.(zero := given.zero && !given.minus, space := given.space && !given.plus);
    var c := if width < 0 then c.(minus := true, width := -width) else c.(width := width);
    var p := if precision < 0 then -1 else precision;
    c.(precision := p, zero := c.zero && p < 0)
  }

  /** A conversion pads on both sides exactly when a negative `*` width brought the - flag after a
      0 flag that nothing else cancelled. */
  lemma PadsTwice(given: Conversion, width: int, precision: int)
    ensures var c := Settled(given, width, precision);
      c.minus && c.zero <==> given.zero && !given.minus && width < 0 && precision < 0
  {
  }

  /** So a field is as wide as asked for, or as its contents, if and only if not a negative `*` width
      greater than the contents met such a 0 flag. */
  lemma WidthExactly(value: nat, isSigned: bool, negative: bool, b: Base, given: Conversion, width: int, precision: int)
    ensures var c := Settled(given, width, precision);
      var n := Natural(value, isSigned, negative, b, c);
      |Rendered(value, isSigned, negative, b, c)| == (if n < Magnitude(width) then Magnitude(width) else n) <==>
        !(given.zero && !given.minus && width < 0 && precision < 0 && n < -width)
  {
    PadsTwice(given, width, precision);
    RenderedLength(value, isSigned, negative, b, Settled(given, width, precision));
  }

  lemma TwoDigits(c: Conversion)
    requires !c.group && !c.pound && c.precision < 0
    ensures Buffer(42, Decimal, c) == "24" && Reversed("24") == "42"
  {
    assert Digits(4, 1, Decimal, false) == "4" by { assert Digits(0, 2, Decimal, false) == ""; }
    assert Digits(42, 0, Decimal, false) == "2" + Digits(4, 1, Decimal, false) == "24";
    assert Repeat('0', 0) == "";
    assert Reversed("4") == "4" && "24"[1..] == "4";
  }

  /** "%0*d" of -5 and 42 prints eight characters. */
  lemma PadsTwiceExample()
    ensures var given := Conversion(false, false, false, false, true, false, 0, -1);
      Rendered(42, true, false, Decimal, Settled(given, -5, -1)) == "00042   "
  {
    var c := Settled(Conversion(false, false, false, false, true, false, 0, -1), -5, -1);
    TwoDigits(c);
    assert Repeat('0', 3) == "000" && Repeat(' ', 3) == "   ";
  }
}
