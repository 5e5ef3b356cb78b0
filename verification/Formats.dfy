/** What the output of an integer conversion means: it reads back as the value in its base, and flags, width and
    precision show where they should. */
module Formats {
  import opened Basics
  import opened Printf

  // ----- a reader ------------------------------------------------------------------------------------

  /** The digits of each base. */
  predicate IsDigitOf(b: Base, ch: char) {
    match b
    case Decimal => '0' <= ch <= '9'
    case Octal => '0' <= ch <= '7'
    case Hex => '0' <= ch <= '9' || 'a' <= ch <= 'f'
    case UpperHex => '0' <= ch <= '9' || 'A' <= ch <= 'F'
  }

  function DigitValue(ch: char): int {
    if '0' <= ch <= '9' then ch as int - '0' as int
    else if 'a' <= ch <= 'f' then ch as int - 'a' as int + 10
    else if 'A' <= ch <= 'F' then ch as int - 'A' as int + 10
    else 0
  }

  function Times(b: Base, v: int): int {
    match b
    case Decimal => 10 * v
    case Octal => 8 * v
    case Hex => 16 * v
    case UpperHex => 16 * v
  }

  /** Reads digits on from the value v, skipping commas, up to a character that is neither. */
  function ReadOn(s: string, v: int, b: Base): int {
    if s == [] then v
    else if s[0] == ',' then ReadOn(s[1..], v, b)
    else if IsDigitOf(b, s[0]) then ReadOn(s[1..], Times(b, v) + DigitValue(s[0]), b)
    else v
  }

  function SkipBlanks(s: string): string {
    if s != [] && s[0] == ' ' then SkipBlanks(s[1..]) else s
  }

  function SkipPrefix(s: string, b: Base): string {
    if (b.Hex? || b.UpperHex?) && |s| >= 2 && s[0] == '0' && (s[1] == 'x' || s[1] == 'X') then s[2..] else s
  }

  /** The sign and the magnitude of a number: blanks, a sign, 0x in base 16, and digits. */
  function Reading(s: string, b: Base): (bool, int) {
    var t := SkipBlanks(s);
    if t != [] && (t[0] == '+' || t[0] == '-') then (t[0] == '-', ReadOn(SkipPrefix(t[1..], b), 0, b))
    else (false, ReadOn(SkipPrefix(t, b), 0, b))
  }

  // ----- digits ----------------------------------------------------------------------------------------

  lemma LowDigitIs(value: nat, b: Base)
    ensures var ch := DigitChar(b, LowDigit(value, b)); IsDigitOf(b, ch) && Times(b, Over(value, b)) + DigitValue(ch) == value
  {
  }

  /** Nothing but digits of the base, and commas if they are asked for. */
  lemma {:induction false} DigitsOfBase(value: nat, cnt: nat, b: Base, group: bool, i: nat)
    requires i < |Digits(value, cnt, b, group)|
    ensures var ch := Digits(value, cnt, b, group)[i]; IsDigitOf(b, ch) || (group && ch == ',')
    decreases value
  {
    if value > 0 {
      var k := |Chunk(value, cnt, b, group)|;
      DigitsStep(value, cnt, b, group);
      LowDigitIs(value, b);
      if i >= k { DigitsOfBase(Over(value, b), cnt + 1, b, group, i - k); }
    }
  }

  /** The digits end with one, and it is not zero: none is superfluous. */
  lemma {:induction false} NoLeadingZero(value: nat, cnt: nat, b: Base, group: bool)
    requires value > 0
    ensures var d := Digits(value, cnt, b, group); d != [] && IsDigitOf(b, d[|d| - 1]) && d[|d| - 1] != '0'
    decreases value
  {
    DigitsStep(value, cnt, b, group);
    LowDigitIs(value, b);
    if Over(value, b) > 0 { NoLeadingZero(Over(value, b), cnt + 1, b, group); }
  }

  /** The digits before a character, from the lowest on. */
  function Phase(cnt: nat, g: nat): nat
    requires g > 0
  {
    if cnt == 0 then 0 else if cnt % g == 0 then g else cnt % g
  }

  lemma PhaseNext(cnt: nat, b: Base)
    ensures var g := GroupSize(b); var p, q := Phase(cnt, g), Phase(cnt + 1, g);
      p <= g && (p < g ==> q == p + 1) && (p == g ==> q == 1) && (p == g <==> cnt > 0 && cnt % g == 0)
  {
    var g := GroupSize(b);
    if g == 3 {
      assert (cnt + 1) % 3 == if cnt % 3 == 2 then 0 else cnt % 3 + 1;
    } else {
      assert (cnt + 1) % 4 == if cnt % 4 == 3 then 0 else cnt % 4 + 1;
    }
  }

  /** A comma belongs at position k of the digits, lowest first. */
  predicate CommaAt(k: nat, b: Base) {
    if b.Hex? || b.UpperHex? then k % 5 == 4 else k % 4 == 3
  }

  lemma CommaTurn(p: nat, k: nat, b: Base, i: nat)
    requires var g := GroupSize(b); p <= g && k == (if p == g then 2 else 1)
    ensures i < k ==> (CommaAt(p + i, b) <==> p + i == GroupSize(b))
    ensures i >= k ==> (CommaAt(p + i, b) <==> CommaAt((if p == GroupSize(b) then 1 else p + 1) + (i - k), b))
  {
  }

  /** The chunk for digit cnt begins with a comma or has none. */
  lemma ChunkCommas(value: nat, cnt: nat, b: Base)
    ensures var g, p, chunk := GroupSize(b), Phase(cnt, GroupSize(b)), Chunk(value, cnt, b, true);
      && p <= g && |chunk| == (if p == g then 2 else 1) && Phase(cnt + 1, g) == (if p == g then 1 else p + 1)
      && (forall i :: 0 <= i < |chunk| ==> (chunk[i] == ',' <==> p + i == g))
  {
    PhaseNext(cnt, b);
    LowDigitIs(value, b);
  }

  lemma {:induction false} CommasFrom(value: nat, cnt: nat, b: Base, i: nat)
    requires i < |Digits(value, cnt, b, true)|
    ensures Digits(value, cnt, b, true)[i] == ',' <==> CommaAt(Phase(cnt, GroupSize(b)) + i, b)
    decreases value
  {
    if value > 0 {
      var chunk := Chunk(value, cnt, b, true);
      var rest := Digits(Over(value, b), cnt + 1, b, true);
      DigitsStep(value, cnt, b, true);
      ChunkCommas(value, cnt, b);
      CommaTurn(Phase(cnt, GroupSize(b)), |chunk|, b, i);
      if i >= |chunk| {
        CommasFrom(Over(value, b), cnt + 1, b, i - |chunk|);
        assert (chunk + rest)[i] == rest[i - |chunk|];
      } else {
        assert (chunk + rest)[i] == chunk[i];
      }
    }
  }

  /** With the ' flag a comma stands behind every three digits, or four in base 16, counted from the lowest, and
      nowhere else. */
  lemma CommaPlaces(value: nat, b: Base, i: nat)
    requires i < |Digits(value, 0, b, true)|
    ensures var g := if b.Hex? || b.UpperHex? then 4 else 3; Digits(value, 0, b, true)[i] == ',' <==> i % (g + 1) == g
  {
    CommasFrom(value, 0, b, i);
  }

  /** The digits of value, read from the highest on, are value. */
  lemma {:induction false} DigitsRead(value: nat, cnt: nat, b: Base, group: bool, tail: string)
    ensures ReadOn(Reversed(Digits(value, cnt, b, group)) + tail, 0, b) == ReadOn(tail, value, b)
    decreases value
  {
    if value == 0 {
      assert Reversed([]) + tail == tail;
    } else {
      DigitsStep(value, cnt, b, group);
      var rest, chunk := Digits(Over(value, b), cnt + 1, b, group), Chunk(value, cnt, b, group);
      ReversedJoin(chunk, rest);
      assert Reversed(rest) + Reversed(chunk) + tail == Reversed(rest) + (Reversed(chunk) + tail);
      DigitsRead(Over(value, b), cnt + 1, b, group, Reversed(chunk) + tail);
      ChunkReads(value, cnt, b, group, tail);
    }
  }

  lemma ChunkReads(value: nat, cnt: nat, b: Base, group: bool, tail: string)
    ensures ReadOn(Reversed(Chunk(value, cnt, b, group)) + tail, Over(value, b), b) == ReadOn(tail, value, b)
  {
    var chunk, d := Chunk(value, cnt, b, group), DigitChar(b, LowDigit(value, b));
    LowDigitIs(value, b);
    assert Reversed([d]) == [d];
    if |chunk| == 2 {
      ReversedJoin([','], [d]);
      assert chunk == [','] + [d] && Reversed(chunk) == [d] + [','];
      assert (Reversed(chunk) + tail)[1..] == [','] + tail && ([','] + tail)[1..] == tail;
    } else {
      assert (Reversed(chunk) + tail)[1..] == tail;
    }
  }

  lemma {:induction false} ZerosRead(n: nat, tail: string, b: Base)
    ensures ReadOn(Repeat('0', n) + tail, 0, b) == ReadOn(tail, 0, b)
  {
    if n == 0 {
      assert Repeat('0', 0) + tail == tail;
    } else {
      assert Repeat('0', n) + tail == Repeat('0', n - 1) + (['0'] + tail);
      ZerosRead(n - 1, ['0'] + tail, b);
      assert (['0'] + tail)[1..] == tail;
    }
  }

  // ----- what is between the paddings ------------------------------------------------------------------

  /** How many zeros stand before the digits: what the precision asks for, and the one of # in base 8. */
  function Zeros(d: string, b: Base, c: Conversion): nat {
    var precision := if c.precision < 0 then 1 else if c.precision > 63 then 63 else c.precision;
    if |d| < precision then precision - |d| else if c.pound && b.Octal? then 1 else 0
  }

  /** The zeros are as many as the precision asks for, up to 63 characters, or as make a # in base 8 begin
      with a zero, and no more. */
  lemma BufferIs(value: nat, b: Base, c: Conversion)
    ensures var d := Digits(value, 0, b, c.group); Buffer(value, b, c) == d + Repeat('0', Zeros(d, b, c))
  {
    var d := Digits(value, 0, b, c.group);
    if value > 0 { NoLeadingZero(value, 0, b, c.group); }
    assert Repeat('0', 0) == [] && Repeat('0', 1) == Repeat('0', 0) + ['0'];
  }

  /** The digits as they are printed. */
  function Shown(value: nat, b: Base, c: Conversion): string {
    Reversed(Buffer(value, b, c))
  }

  lemma ShownIs(value: nat, b: Base, c: Conversion)
    ensures var d := Digits(value, 0, b, c.group); Shown(value, b, c) == Repeat('0', Zeros(d, b, c)) + Reversed(d)
  {
    var d := Digits(value, 0, b, c.group);
    BufferIs(value, b, c);
    ReversedJoin(d, Repeat('0', Zeros(d, b, c)));
    ReversedRepeat('0', Zeros(d, b, c));
  }

  /** # in base 8 makes what is shown begin with a zero. */
  lemma OctalZero(value: nat, c: Conversion)
    requires c.pound
    ensures var s := Shown(value, Octal, c); s != [] && s[0] == '0'
  {
    ShownIs(value, Octal, c);
    if value > 0 { NoLeadingZero(value, 0, Octal, c.group); }
  }

  lemma {:induction false} ReversedHas(s: string, i: nat)
    requires i < |s|
    ensures Reversed(s)[i] == s[|s| - 1 - i]
  {
    if i < |s| - 1 { ReversedHas(s[1..], i); }
  }

  lemma ReversedChars(value: nat, b: Base, group: bool, i: nat)
    requires i < |Digits(value, 0, b, group)|
    ensures var ch := Reversed(Digits(value, 0, b, group))[i]; IsDigitOf(b, ch) || (i > 0 && group && ch == ',')
  {
    var d := Digits(value, 0, b, group);
    ReversedHas(d, i);
    DigitsOfBase(value, 0, b, group, |d| - 1 - i);
    if i == 0 { NoLeadingZero(value, 0, b, group); }
  }

  /** What is shown begins with a digit, if it is not empty, and has digits of the base and commas only. */
  lemma ShownChars(value: nat, b: Base, c: Conversion, i: nat)
    requires i < |Shown(value, b, c)|
    ensures var ch := Shown(value, b, c)[i]; IsDigitOf(b, ch) || (i > 0 && c.group && ch == ',')
  {
    var d := Digits(value, 0, b, c.group);
    var k := Zeros(d, b, c);
    ShownIs(value, b, c);
    if i >= k { ReversedChars(value, b, c.group, i - k); }
  }

  // ----- the whole field -----------------------------------------------------------------------------------

  lemma {:induction false} BlanksSkipped(n: nat, s: string)
    ensures SkipBlanks(Repeat(' ', n) + s) == SkipBlanks(s)
  {
    if n == 0 {
      assert Repeat(' ', 0) + s == s;
    } else {
      assert Repeat(' ', n) + s == Repeat(' ', n - 1) + ([' '] + s);
      BlanksSkipped(n - 1, [' '] + s);
      assert ([' '] + s)[1..] == s;
    }
  }

  lemma BlanksOnly(n: nat)
    ensures SkipBlanks(Repeat(' ', n)) == []
  {
    BlanksSkipped(n, []);
    assert Repeat(' ', n) + [] == Repeat(' ', n);
  }

  /** Zeros, the digits, and blanks read as the value. */
  lemma BodyReads(value: nat, b: Base, c: Conversion, zeros: nat, blanks: nat)
    ensures ReadOn(Repeat('0', zeros) + Shown(value, b, c) + Repeat(' ', blanks), 0, b) == value
  {
    var d, t := Digits(value, 0, b, c.group), Repeat(' ', blanks);
    var k := Zeros(d, b, c);
    ShownIs(value, b, c);
    assert Repeat('0', zeros) + (Repeat('0', k) + Reversed(d)) + t == Repeat('0', zeros) + (Repeat('0', k) + (Reversed(d) + t));
    ZerosRead(zeros, Repeat('0', k) + (Reversed(d) + t), b);
    ZerosRead(k, Reversed(d) + t, b);
    DigitsRead(value, 0, b, c.group, t);
    if blanks > 0 { assert t[0] == ' '; }
  }

  /** What follows the sign. */
  function Body(value: nat, b: Base, c: Conversion, zeros: nat, blanks: nat): string {
    Repeat('0', zeros) + Shown(value, b, c) + Repeat(' ', blanks)
  }

  lemma BodyChars(value: nat, b: Base, c: Conversion, zeros: nat, blanks: nat, i: nat)
    requires i < |Body(value, b, c, zeros, blanks)|
    ensures var ch := Body(value, b, c, zeros, blanks)[i];
      IsDigitOf(b, ch) || (i > 0 && ch == ',') || (ch == ' ' && (i > 0 || value == 0))
  {
    var n := |Shown(value, b, c)|;
    if zeros <= i < zeros + n { ShownChars(value, b, c, i - zeros); }
    if value > 0 {
      ShownIs(value, b, c);
      NoLeadingZero(value, 0, b, c.group);
    }
  }

  /** Behind the sign and the prefix nothing is taken for a prefix. */
  lemma PrefixedReads(value: nat, b: Base, c: Conversion, zeros: nat, blanks: nat)
    ensures ReadOn(SkipPrefix(Prefix(value, b, c) + Body(value, b, c, zeros, blanks), b), 0, b) == value
  {
    var x, t := Prefix(value, b, c), Body(value, b, c, zeros, blanks);
    BodyReads(value, b, c, zeros, blanks);
    if x == [] {
      assert x + t == t;
      if |t| >= 2 { BodyChars(value, b, c, zeros, blanks, 1); }
    } else {
      assert (x + t)[2..] == t;
    }
  }

  lemma BlankBodyReads(value: nat, b: Base, c: Conversion, zeros: nat, blanks: nat)
    ensures var u := SkipBlanks(Prefix(value, b, c) + Body(value, b, c, zeros, blanks));
      && (u != [] ==> u[0] != '+' && u[0] != '-') && ReadOn(SkipPrefix(u, b), 0, b) == value
  {
    var x, t := Prefix(value, b, c), Body(value, b, c, zeros, blanks);
    PrefixedReads(value, b, c, zeros, blanks);
    if x == [] && t != [] {
      assert x + t == t;
      BodyChars(value, b, c, zeros, blanks, 0);
      if t[0] == ' ' {
        BlankBody(value, b, c, zeros, blanks);
        BlanksOnly(blanks);
      }
    }
  }

  lemma ShownEmpty(value: nat, b: Base, c: Conversion)
    ensures Shown(value, b, c) == [] ==> value == 0
  {
    ShownIs(value, b, c);
    if value > 0 { NoLeadingZero(value, 0, b, c.group); }
  }

  /** A body that begins with a blank has nothing else: a zero printed with precision 0. */
  lemma BlankBody(value: nat, b: Base, c: Conversion, zeros: nat, blanks: nat)
    requires var t := Body(value, b, c, zeros, blanks); t != [] && t[0] == ' '
    ensures value == 0 && Body(value, b, c, zeros, blanks) == Repeat(' ', blanks)
  {
    ShownEmpty(value, b, c);
    if Shown(value, b, c) != [] { ShownChars(value, b, c, 0); }
  }

  /** A sign, or none, or a blank in its place. */
  lemma SignRead(sign: string, t: string, b: Base, value: int)
    requires sign == [] || sign == [' '] || sign == ['+'] || sign == ['-']
    requires ReadOn(SkipPrefix(t, b), 0, b) == value
    requires var u := SkipBlanks(t); (u != [] ==> u[0] != '+' && u[0] != '-') && ReadOn(SkipPrefix(u, b), 0, b) == value
    ensures Reading(sign + t, b) == (sign == ['-'], value)
  {
    if sign == [] {
      assert sign + t == t;
    } else {
      assert (sign + t)[1..] == t && (sign + t)[0] == sign[0];
    }
  }

  lemma SignedBodyReads(value: nat, isSigned: bool, negative: bool, b: Base, c: Conversion, zeros: nat, blanks: nat)
    ensures Reading(Sign(isSigned, negative, c) + (Prefix(value, b, c) + Body(value, b, c, zeros, blanks)), b) == (isSigned && negative, value)
  {
    PrefixedReads(value, b, c, zeros, blanks);
    BlankBodyReads(value, b, c, zeros, blanks);
    SignRead(Sign(isSigned, negative, c), Prefix(value, b, c) + Body(value, b, c, zeros, blanks), b, value);
  }

  lemma PaddingIs(when: bool, ch: char, pad: nat)
    ensures Padding(when, ch, pad) == Repeat(ch, if when then pad else 0)
  {
  }

  lemma Nested(a: string, s: string, x: string, z: string, r: string, t: string)
    ensures a + s + x + z + r + t == a + (s + (x + (z + r + t)))
  {
  }

  lemma FieldSplit(sign: string, x: string, buffer: string, c: Conversion) returns (blanks: nat, zeros: nat, after: nat)
    ensures Field(sign, x, buffer, c) == Repeat(' ', blanks) + (sign + (x + (Repeat('0', zeros) + Reversed(buffer) + Repeat(' ', after))))
  {
    var pad := Pad(|sign| + |x| + |buffer|, c.width);
    blanks := if !c.minus && !c.zero then pad else 0;
    zeros := if c.zero then pad else 0;
    after := if c.minus then pad else 0;
    PaddingIs(!c.minus && !c.zero, ' ', pad);
    PaddingIs(c.zero, '0', pad);
    PaddingIs(c.minus, ' ', pad);
    Nested(Repeat(' ', blanks), sign, x, Repeat('0', zeros), Reversed(buffer), Repeat(' ', after));
  }

  lemma RenderedSplits(value: nat, isSigned: bool, negative: bool, b: Base, c: Conversion) returns (blanks: nat, zeros: nat, after: nat)
    ensures Rendered(value, isSigned, negative, b, c) ==
      Repeat(' ', blanks) + (Sign(isSigned, negative, c) + (Prefix(value, b, c) + Body(value, b, c, zeros, after)))
  {
    blanks, zeros, after := FieldSplit(Sign(isSigned, negative, c), Prefix(value, b, c), Buffer(value, b, c), c);
  }

  lemma BlanksRead(n: nat, s: string, b: Base)
    ensures Reading(Repeat(' ', n) + s, b) == Reading(s, b)
  {
    BlanksSkipped(n, s);
  }

  /** The output of every integer conversion, in every base and with every combination of flags, width and precision,
      reads back as the value with its sign. */
  lemma ReadsBack(value: nat, isSigned: bool, negative: bool, b: Base, c: Conversion)
    ensures Reading(Rendered(value, isSigned, negative, b, c), b) == (isSigned && negative, value)
  {
    var blanks, zeros, after := RenderedSplits(value, isSigned, negative, b, c);
    SignedBodyReads(value, isSigned, negative, b, c, zeros, after);
    BlanksRead(blanks, Sign(isSigned, negative, c) + (Prefix(value, b, c) + Body(value, b, c, zeros, after)), b);
  }

  // ----- flags and width ------------------------------------------------------------------------------------

  /** The same conversion without a width. */
  function Bare(value: nat, isSigned: bool, negative: bool, b: Base, c: Conversion): string {
    Rendered(value, isSigned, negative, b, c.(width := 0))
  }

  lemma NoPadding(a: string, s: string, x: string, z: string, r: string, t: string)
    requires a == "" && z == "" && t == ""
    ensures a + s + x + z + r + t == s + x + r
  {
  }

  lemma BareIs(value: nat, isSigned: bool, negative: bool, b: Base, c: Conversion)
    ensures Bare(value, isSigned, negative, b, c) == Sign(isSigned, negative, c) + Prefix(value, b, c) + Shown(value, b, c)
  {
    var d := c.(width := 0);
    SameParts(value, isSigned, negative, b, c, d);
    FieldBare(Sign(isSigned, negative, c), Prefix(value, b, c), Buffer(value, b, c), d);
  }

  lemma SameCompleted(s: string, b: Base, c: Conversion, d: Conversion)
    requires d.pound == c.pound && d.precision == c.precision
    ensures Completed(s, b, d) == Completed(s, b, c)
  {
  }

  /** The width has no part in sign, prefix and digits. */
  lemma SameParts(value: nat, isSigned: bool, negative: bool, b: Base, c: Conversion, d: Conversion)
    requires d == c.(width := 0)
    ensures Sign(isSigned, negative, d) == Sign(isSigned, negative, c) && Prefix(value, b, d) == Prefix(value, b, c)
    ensures Buffer(value, b, d) == Buffer(value, b, c)
  {
    SameCompleted(Digits(value, 0, b, c.group), b, c, d);
  }

  lemma FieldBare(sign: string, x: string, buffer: string, c: Conversion)
    requires c.width == 0
    ensures Field(sign, x, buffer, c) == sign + x + Reversed(buffer)
  {
    PaddingIs(!c.minus && !c.zero, ' ', 0);
    PaddingIs(c.zero, '0', 0);
    PaddingIs(c.minus, ' ', 0);
    NoPadding(Padding(!c.minus && !c.zero, ' ', 0), sign, x, Padding(c.zero, '0', 0), Reversed(buffer), Padding(c.minus, ' ', 0));
  }

  /** r is s padded to the width of c: blanks in front, blanks behind with the - flag, and zeros at k with the 0 flag. */
  predicate PaddedTo(s: string, r: string, k: nat, c: Conversion) {
    var pad := if |s| < c.width then c.width - |s| else 0;
    && k <= |s|
    && (!c.minus && !c.zero ==> r == Repeat(' ', pad) + s)
    && (c.minus && !c.zero ==> r == s + Repeat(' ', pad))
    && (c.zero && !c.minus ==> r == s[..k] + Repeat('0', pad) + s[k..])
  }

  lemma OnePadding(s: string, x: string, r: string, p: string)
    ensures p + s + x + "" + r + "" == p + (s + x + r) && "" + s + x + "" + r + p == s + x + r + p
    ensures "" + s + x + p + r + "" == (s + x + r)[..|s| + |x|] + p + (s + x + r)[|s| + |x|..]
  {
    assert (s + x + r)[..|s| + |x|] == s + x && (s + x + r)[|s| + |x|..] == r;
  }

  lemma FieldPads(sign: string, x: string, buffer: string, c: Conversion)
    ensures PaddedTo(sign + x + Reversed(buffer), Field(sign, x, buffer, c), |sign| + |x|, c)
  {
    var pad := Pad(|sign| + |x| + |buffer|, c.width);
    OnePadding(sign, x, Reversed(buffer), Repeat(' ', pad));
    OnePadding(sign, x, Reversed(buffer), Repeat('0', pad));
  }

  predicate Begins(s: string, ch: char) {
    s != [] && s[0] == ch
  }

  /** A signed conversion begins with - for a negative value; and for others with + if the + flag is given, and
      with a space if only the space flag is.  An unsigned conversion has none of them. */
  lemma SignShows(value: nat, isSigned: bool, negative: bool, b: Base, c: Conversion)
    ensures var s := Bare(value, isSigned, negative, b, c);
      && (Begins(s, '-') <==> isSigned && negative)
      && (Begins(s, '+') <==> isSigned && !negative && c.plus)
      && (Begins(s, ' ') <==> isSigned && !negative && !c.plus && c.space)
  {
    BareIs(value, isSigned, negative, b, c);
    if Shown(value, b, c) != [] { ShownChars(value, b, c, 0); }
  }

  /** The # flag shows as 0x or 0X, in base 16 only, in the letter case of the digits, and not for zero. */
  lemma PrefixShows(value: nat, isSigned: bool, negative: bool, b: Base, c: Conversion)
    ensures var s := Bare(value, isSigned, negative, b, c);
      && ('x' in s <==> c.pound && value > 0 && b.Hex?) && ('X' in s <==> c.pound && value > 0 && b.UpperHex?)
      && (forall i :: 0 <= i < |s| && (s[i] == 'x' || s[i] == 'X') ==> 1 <= i <= 2 && s[i - 1] == '0')
  {
    BareIs(value, isSigned, negative, b, c);
    forall i | 0 <= i < |Shown(value, b, c)|
      ensures Shown(value, b, c)[i] != 'x' && Shown(value, b, c)[i] != 'X'
    {
      ShownChars(value, b, c, i);
    }
    XPlaces(Sign(isSigned, negative, c), Prefix(value, b, c), Shown(value, b, c));
  }

  lemma XPlaces(sign: string, x: string, d: string)
    requires |sign| <= 1 && 'x' !in sign && 'X' !in sign && 'x' !in d && 'X' !in d && (x == "" || x == "0x" || x == "0X")
    ensures var s := sign + x + d; ('x' in s <==> x == "0x") && ('X' in s <==> x == "0X")
    ensures var s := sign + x + d; forall i :: 0 <= i < |s| && (s[i] == 'x' || s[i] == 'X') ==> 1 <= i <= 2 && s[i - 1] == '0'
  {
    var s := sign + x + d;
    if x != "" { assert s[|sign| + 1] == x[1] && s[|sign|] == '0'; }
  }

  /** Padding up to the width is blanks in front; blanks behind with the - flag; and zeros behind sign and prefix with
      the 0 flag. */
  lemma PadsWhere(value: nat, isSigned: bool, negative: bool, b: Base, c: Conversion)
    ensures PaddedTo(Bare(value, isSigned, negative, b, c), Rendered(value, isSigned, negative, b, c),
      |Sign(isSigned, negative, c)| + |Prefix(value, b, c)|, c)
  {
    BareIs(value, isSigned, negative, b, c);
    assert Rendered(value, isSigned, negative, b, c) == Field(Sign(isSigned, negative, c), Prefix(value, b, c), Buffer(value, b, c), c);
    FieldPads(Sign(isSigned, negative, c), Prefix(value, b, c), Buffer(value, b, c), c);
  }

  /** Flags, width and precision as given show in the output: + and space in front, # as a prefix, and as many digits as the
      precision asks for, up to 63, or as the value has. */
  lemma GivenShows(value: nat, isSigned: bool, negative: bool, b: Base, given: Conversion, width: int, precision: int)
    ensures var c := Settled(given, width, precision);
      var s := Bare(value, isSigned, negative, b, c);
      && (Begins(s, '+') <==> isSigned && !negative && given.plus)
      && (Begins(s, ' ') <==> isSigned && !negative && !given.plus && given.space)
      && ('x' in s <==> given.pound && value > 0 && b.Hex?) && ('X' in s <==> given.pound && value > 0 && b.UpperHex?)
  {
    var c := Settled(given, width, precision);
    SignShows(value, isSigned, negative, b, c);
    PrefixShows(value, isSigned, negative, b, c);
  }

  lemma PrecisionShows(value: nat, b: Base, given: Conversion, width: int, precision: int)
    ensures var n, d := |Shown(value, b, Settled(given, width, precision))|, |Digits(value, 0, b, given.group)|;
      var least := if precision < 0 then 1 else if precision > 63 then 63 else precision;
      n == (if d < least then least else d) + (if given.pound && b.Octal? && d >= least then 1 else 0)
  {
    ShownIs(value, b, Settled(given, width, precision));
  }

  // ----- atoi() of any number ------------------------------------------------------------------------------

  predicate AllDigits(s: string) {
    forall i :: 0 <= i < |s| ==> '0' <= s[i] <= '9'
  }

  /** Reading on never makes a number smaller. */
  lemma {:induction false} ReadsUp(ds: string, v: nat)
    requires AllDigits(ds)
    ensures ReadOn(ds, v, Decimal) >= v
  {
    if ds != [] { ReadsUp(ds[1..], 10 * v + DigitValue(ds[0])); }
  }

  lemma {:induction false} AccumulatesExactly(ds: string, rest: string, v: int)
    requires AllDigits(ds) && (rest != [] ==> !('0' <= rest[0] <= '9')) && 0 <= v <= 0x8000_0000
    ensures var n := ReadOn(ds, v, Decimal); Accumulate(ds + rest, -v) == if n <= 0x8000_0000 then Some(-n) else None
  {
    if ds == [] {
      assert ds + rest == rest;
    } else {
      var w := 10 * v + DigitValue(ds[0]);
      assert (ds + rest)[0] == ds[0] && (ds + rest)[1..] == ds[1..] + rest;
      if w <= 0x8000_0000 {
        AccumulatesExactly(ds[1..], rest, w);
      } else {
        ReadsUp(ds[1..], w);
      }
    }
  }

  predicate AllWhite(s: string) {
    forall i :: 0 <= i < |s| ==> s[i] == ' ' || s[i] == '\n' || s[i] == '\r' || s[i] == '\t' || s[i] == 11 as char || s[i] == 12 as char
  }

  lemma {:induction false} WhiteSkipped(w: string, t: string)
    requires AllWhite(w)
    ensures SkipSpaces(w + t) == SkipSpaces(t)
  {
    if w == [] {
      assert w + t == t;
    } else {
      assert (w + t)[1..] == w[1..] + t;
      WhiteSkipped(w[1..], t);
    }
  }

  /** atoi() of white space, a sign or none, and digits, whatever follows them, is the number, and overflows exactly
      if the number is not an int. */
  lemma AtoiExactly(w: string, sign: string, ds: string, rest: string)
    requires AllWhite(w) && (sign == "" || sign == "+" || sign == "-") && AllDigits(ds) && ds != []
    requires rest != [] ==> !('0' <= rest[0] <= '9')
    ensures var n := ReadOn(ds, 0, Decimal);
      Atoi(w + (sign + (ds + rest))) ==
        if sign == "-" then (if n <= 0x8000_0000 then Some(-n) else None) else if n < 0x8000_0000 then Some(n) else None
  {
    var t := sign + (ds + rest);
    WhiteSkipped(w, t);
    AccumulatesExactly(ds, rest, 0);
    ReadsUp(ds, 0);
    if sign == "" {
      assert t == ds + rest && t[0] == ds[0];
    } else {
      assert t[0] == sign[0] && t[1..] == ds + rest;
    }
  }
}
