/** JavaScript strings as sequences of UTF-16 code units, and the few built-in operations
    the framing code relies on: `indexOf`, decimal printing and `Number`. */
module Text {

  /** One UTF-16 code unit. */
  type Unit = x: int | 0 <= x < 0x1_0000

  type Text = seq<Unit>

  const CR: Unit := 13
  const LF: Unit := 10
  const CRLF: Text := [CR, LF]

  const ZERO: Unit := '0' as int
  const MINUS: Unit := '-' as int
  const PLUS: Unit := '+' as int
  const STAR: Unit := '*' as int
  const DOLLAR: Unit := '$' as int
  const SPACE: Unit := ' ' as int

  function Min(a: int, b: int): int {
    if a <= b then a else b
  }

  function Max(a: int, b: int): int {
    if a <= b then b else a
  }

  /** `t` occurs in `buffer` at offset `at`. */
  predicate OccursAt(buffer: Text, t: Text, at: int) {
    0 <= at && at + |t| <= |buffer| && buffer[at..at + |t|] == t
  }

  /** `buffer.indexOf(mark, start)`: the first occurrence at or after `start`, else -1. */
  function IndexOf(buffer: Text, mark: Text, start: nat): (r: int)
    ensures r == -1 || start <= r <= |buffer| - |mark|
    decreases |buffer| - start
  {
    if start + |mark| > |buffer| then -1
    else if buffer[start..start + |mark|] == mark then start
    else if start == |buffer| then -1
    else IndexOf(buffer, mark, start + 1)
  }

  /** The result is an occurrence, and there is none before it. */
  lemma {:induction false} IndexOfIsFirst(buffer: Text, mark: Text, start: nat)
    ensures var r := IndexOf(buffer, mark, start);
      && (r >= 0 ==> OccursAt(buffer, mark, r))
      && forall j :: start <= j && (j < r || r < 0) ==> !OccursAt(buffer, mark, j)
    decreases |buffer| - start
  {
    if start < |buffer| {
      IndexOfIsFirst(buffer, mark, start + 1);
    }
  }

  /** A found position is the first occurrence, so it does not depend on what follows it. */
  lemma {:induction false} IndexOfStable(buffer: Text, more: Text, mark: Text, start: nat)
    requires IndexOf(buffer, mark, start) >= 0
    ensures IndexOf(buffer + more, mark, start) == IndexOf(buffer, mark, start)
    decreases |buffer| - start
  {
    assert (buffer + more)[start..start + |mark|] == buffer[start..start + |mark|];
    if buffer[start..start + |mark|] != mark {
      IndexOfStable(buffer, more, mark, start + 1);
    }
  }

  /** The text holds no CRLF. */
  predicate OneLine(t: Text) {
    IndexOf(t, CRLF, 0) < 0
  }

  lemma OneLineUnits(t: Text)
    ensures OneLine(t) <==> forall i, j :: 0 <= i && j == i + 1 && j < |t| ==> !(t[i] == CR && t[j] == LF)
  {
    IndexOfIsFirst(t, CRLF, 0);
    if OneLine(t) {
      forall i, j | 0 <= i && j == i + 1 && j < |t|
        ensures !(t[i] == CR && t[j] == LF)
      {
        assert !OccursAt(t, CRLF, i);
      }
    } else {
      var i := IndexOf(t, CRLF, 0);
      assert t[i..i + 2][0] == t[i] && t[i..i + 2][1] == t[i + 1];
    }
  }

  /** A CRLF-free line followed by CRLF ends exactly where it was printed to end. */
  lemma {:induction false} IndexOfLineEnd(buffer: Text, start: nat, line: Text)
    requires OneLine(line) && OccursAt(buffer, line + CRLF, start)
    ensures IndexOf(buffer, CRLF, start) == start + |line|
  {
    IndexOfIsFirst(buffer, CRLF, start);
    OneLineUnits(line);
    var here := line + CRLF;
    assert forall k :: 0 <= k < |here| ==> buffer[start + k] == here[k];
    assert buffer[start + |line|..start + |line| + 2] == CRLF;
    assert OccursAt(buffer, CRLF, start + |line|);
    forall j | start <= j < start + |line|
      ensures !OccursAt(buffer, CRLF, j)
    {
      var i := j - start;
      assert buffer[start + i] == here[i] == line[i];
      assert buffer[start + (i + 1)] == here[i + 1];
      assert buffer[j..j + 2][0] == line[i] && buffer[j..j + 2][1] == here[i + 1];
      assert CRLF[0] == CR && CRLF[1] == LF;
    }
  }

  /** Cutting an occurrence of a concatenation into its two halves. */
  lemma OccursSplit(buffer: Text, a: Text, b: Text, at: int)
    requires OccursAt(buffer, a + b, at)
    ensures OccursAt(buffer, a, at) && OccursAt(buffer, b, at + |a|)
  {
    var whole := buffer[at..at + |a + b|];
    assert whole[..|a|] == a && whole[|a|..] == b;
    assert buffer[at..at + |a|] == whole[..|a|];
    assert buffer[at + |a|..at + |a| + |b|] == whole[|a|..];
  }

  // ---- Decimal numbers ---------------------------------------------------------------

  predicate IsDigit(u: Unit) {
    ZERO <= u <= ZERO + 9
  }

  predicate AllDigits(t: Text) {
    forall i :: 0 <= i < |t| ==> IsDigit(t[i])
  }

  /** The decimal digits of a natural number, without leading zeros. */
  function PrintNat(n: nat): (t: Text)
    ensures |t| >= 1 && AllDigits(t)
    ensures |t| > 1 ==> t[0] != ZERO
    ensures n > 0 ==> t[0] != ZERO
  {
    if n < 10 then [ZERO + n] else PrintNat(n / 10) + [ZERO + n % 10]
  }

  /** `String(n)` for an integer. */
  function PrintInt(n: int): (t: Text)
    ensures |t| >= 1
  {
    if n < 0 then [MINUS] + PrintNat(-n) else PrintNat(n)
  }

  function DigitsValue(t: Text): (n: nat)
    requires AllDigits(t)
  {
    if t == [] then 0 else DigitsValue(t[..|t| - 1]) * 10 + (t[|t| - 1] - ZERO)
  }

  lemma {:induction false} DigitsValueOfPrint(n: nat)
    ensures DigitsValue(PrintNat(n)) == n
  {
    var t := PrintNat(n);
    if n < 10 {
      assert t[..|t| - 1] == [];
    } else {
      DigitsValueOfPrint(n / 10);
      assert t[..|t| - 1] == PrintNat(n / 10);
    }
  }

  lemma PrintIntOneLine(n: int)
    ensures OneLine(PrintInt(n))
  {
    var t := PrintInt(n);
    assert forall i :: 0 <= i < |t| ==> t[i] == MINUS || IsDigit(t[i]);
    OneLineUnits(t);
  }

  /** What ECMAScript trims around a numeric literal. */
  predicate IsWhiteSpace(u: Unit) {
    || u in {9, 10, 11, 12, 13, 0x20, 0xA0, 0x1680, 0x2028, 0x2029, 0x202F, 0x205F, 0x3000, 0xFEFF}
    || 0x2000 <= u <= 0x200A
  }

  function TrimStart(t: Text): Text {
    if t != [] && IsWhiteSpace(t[0]) then TrimStart(t[1..]) else t
  }

  function TrimEnd(t: Text): Text {
    if t != [] && IsWhiteSpace(t[|t| - 1]) then TrimEnd(t[..|t| - 1]) else t
  }

  /** An optional sign followed by digits. */
  function SignedDigits(t: Text): Option<int> {
    if t != [] && AllDigits(t) then Some(DigitsValue(t))
    else if |t| > 1 && t[0] == MINUS && AllDigits(t[1..]) then Some(0 - DigitsValue(t[1..]) as int)
    else if |t| > 1 && t[0] == PLUS && AllDigits(t[1..]) then Some(DigitsValue(t[1..]))
    else None
  }

  datatype Option<+T> = None | Some(value: T)

  /** `Number(text)` restricted to decimal integer literals: `None` is "not an integer".
      The empty string is zero, as in ECMAScript. */
  function ToInteger(t: Text): Option<int> {
    var trimmed := TrimEnd(TrimStart(t));
    if trimmed == [] then Some(0) else SignedDigits(trimmed)
  }

  lemma ToIntegerOfPrint(n: int)
    ensures ToInteger(PrintInt(n)) == Some(n)
  {
    var t := PrintInt(n);
    assert forall i :: 0 <= i < |t| ==> t[i] == MINUS || IsDigit(t[i]);
    assert TrimEnd(TrimStart(t)) == t;
    if n < 0 {
      assert t[1..] == PrintNat(-n);
      assert !IsDigit(t[0]);
      DigitsValueOfPrint(-n);
    } else {
      DigitsValueOfPrint(n);
    }
  }

  // ---- UTF-8 -------------------------------------------------------------------------

  predicate IsHigh(u: Unit) {
    0xD800 <= u <= 0xDBFF
  }

  predicate IsLow(u: Unit) {
    0xDC00 <= u <= 0xDFFF
  }

  /** How many units the code point at `at` occupies: two for a surrogate pair. */
  function CodePointUnits(t: Text, at: nat): (n: nat)
    requires at < |t|
    ensures 1 <= n <= 2 && at + n <= |t|
  {
    if IsHigh(t[at]) && at + 1 < |t| && IsLow(t[at + 1]) then 2 else 1
  }

  /** `t.codePointAt(at)`: a surrogate pair is one code point, a lone surrogate is itself. */
  function CodePointAt(t: Text, at: nat): (c: nat)
    requires at < |t|
  {
    if CodePointUnits(t, at) == 2 then
      var high: int, low: int := t[at], t[at + 1];
      0x10000 + (high - 0xD800) * 0x400 + (low - 0xDC00)
    else t[at]
  }

  /** How many UTF-8 bytes a code point takes; section 3 of RFC 3629. */
  function Utf8Length(codePoint: int): (n: nat)
    ensures 1 <= n <= 4
  {
    if codePoint < 0x80 then 1
    else if codePoint < 0x800 then 2
    else if codePoint < 0x10000 then 3
    else 4
  }

  /** `Buffer.byteLength(t)`: a lone surrogate is sent as U+FFFD, which takes three bytes
      like the surrogate's own code point. */
  function ByteLength(t: Text): nat
    decreases |t|
  {
    if |t| == 0 then 0
    else Utf8Length(CodePointAt(t, 0)) + ByteLength(t[CodePointUnits(t, 0)..])
  }

  type Byte = x: Unit | x < 0x100

  /** The UTF-8 bytes of one code point; section 3 of RFC 3629. A lone surrogate is no
      character and is sent as U+FFFD. */
  function Utf8Bytes(c: int): (b: seq<Byte>)
    requires 0 <= c < 0x110000
    ensures |b| == Utf8Length(c)
    ensures c < 0x80 ==> b == [c]
    ensures c >= 0x80 ==> forall i :: 0 <= i < |b| ==> b[i] >= 0x80
  {
    if c < 0x80 then [c]
    else if c < 0x800 then [0xC0 + c / 0x40, 0x80 + c % 0x40]
    else if 0xD800 <= c <= 0xDFFF then [0xEF, 0xBF, 0xBD]
    else if c < 0x10000 then [0xE0 + c / 0x1000, 0x80 + c / 0x40 % 0x40, 0x80 + c % 0x40]
    else [0xF0 + c / 0x40000, 0x80 + c / 0x1000 % 0x40, 0x80 + c / 0x40 % 0x40, 0x80 + c % 0x40]
  }

  /** What the socket writes for a text. */
  function Utf8(t: Text): (b: seq<Byte>)
    ensures |b| == ByteLength(t)
    decreases |t|
  {
    if |t| == 0 then []
    else Utf8Bytes(CodePointAt(t, 0)) + Utf8(t[CodePointUnits(t, 0)..])
  }

  /** Bytes of two texts written one after the other, unless a surrogate pair is split between them. */
  lemma {:induction false} Utf8Append(a: Text, b: Text)
    requires |b| == 0 || !IsLow(b[0])
    ensures Utf8(a + b) == Utf8(a) + Utf8(b)
    decreases |a|
  {
    if |a| == 0 {
      assert a + b == b;
    } else {
      var n := CodePointUnits(a, 0);
      assert CodePointUnits(a + b, 0) == n && CodePointAt(a + b, 0) == CodePointAt(a, 0);
      assert (a + b)[n..] == a[n..] + b;
      Utf8Append(a[n..], b);
    }
  }

  /** ASCII text is written as it is. */
  lemma {:induction false} Utf8Ascii(t: Text)
    requires forall i :: 0 <= i < |t| ==> t[i] < 0x80
    ensures Utf8(t) == t
    decreases |t|
  {
    if |t| > 0 {
      Utf8Ascii(t[1..]);
      assert t == [t[0]] + t[1..];
    }
  }

  /** An ASCII byte on the wire is an ASCII character of the text. */
  lemma {:induction false} AsciiByteIsUnit(t: Text, i: nat)
    requires i < |Utf8(t)| && Utf8(t)[i] < 0x80
    ensures Utf8(t)[i] in t
    decreases |t|
  {
    var n := CodePointUnits(t, 0);
    var first := Utf8Bytes(CodePointAt(t, 0));
    if i < |first| {
      assert Utf8(t)[i] == first[i];
      assert t[0] in t;
    } else {
      assert Utf8(t)[i] == Utf8(t[n..])[i - |first|];
      AsciiByteIsUnit(t[n..], i - |first|);
    }
  }

  function Join(parts: seq<Text>, separator: Text): Text {
    if |parts| == 0 then []
    else if |parts| == 1 then parts[0]
    else parts[0] + separator + Join(parts[1..], separator)
  }
}
