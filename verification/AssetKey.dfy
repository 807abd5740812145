/** The text form of an asset key: `yak1.` and 32 bytes in base64url, sections 3.5 and 5 of
    RFC 4648. Only the encoding itself is accepted, so no key has two texts. */
module AssetKey {
  import opened Text
  import opened BodyReader

  type Digit = d: nat | d < 64

  /** The character of a digit. */
  function Character(d: Digit): Unit {
    if d < 26 then 0x41 + d
    else if d < 52 then 0x61 + (d - 26)
    else if d < 62 then 0x30 + (d - 52)
    else if d == 62 then 0x2D
    else 0x5F
  }

  /** `alphabet.indexOf(character)`. */
  function DigitOf(u: Unit): Option<Digit> {
    if 0x41 <= u <= 0x5A then Some(u - 0x41)
    else if 0x61 <= u <= 0x7A then Some(u - 0x61 + 26)
    else if 0x30 <= u <= 0x39 then Some(u - 0x30 + 52)
    else if u == 0x2D then Some(62)
    else if u == 0x5F then Some(63)
    else None
  }

  /** One character for each digit, and each back to its digit. */
  lemma AlphabetRoundTrip(d: Digit, u: Unit)
    ensures DigitOf(Character(d)) == Some(d)
    ensures DigitOf(u).Some? ==> Character(DigitOf(u).value) == u
  {
  }

  // ---- Encoding --------------------------------------------------------------------------------

  /** Six bits at a time, three bytes to four digits, nothing padded. */
  function Encode(bytes: Bytes): Text {
    if |bytes| == 0 then []
    else if |bytes| == 1 then [Character(bytes[0] / 4), Character(bytes[0] % 4 * 16)]
    else if |bytes| == 2 then
      [Character(bytes[0] / 4), Character(bytes[0] % 4 * 16 + bytes[1] / 16), Character(bytes[1] % 16 * 4)]
    else
      [Character(bytes[0] / 4), Character(bytes[0] % 4 * 16 + bytes[1] / 16),
       Character(bytes[1] % 16 * 4 + bytes[2] / 64), Character(bytes[2] % 64)] + Encode(bytes[3..])
  }

  /** Three bytes as one number. */
  function Packed(a: int, b: int, c: int): int {
    a * 0x10000 + b * 0x100 + c
  }

  /** Four digits taken out of the number by shifting and masking. */
  function Digits(n: nat): Text {
    [Character(n / 0x40000 % 64), Character(n / 0x1000 % 64), Character(n / 0x40 % 64), Character(n % 64)]
  }

  lemma Shifted(a: Byte, b: Byte, c: Byte)
    ensures var n := Packed(a, b, c);
      && n / 0x40000 == a / 4 && n / 0x1000 == a * 16 + b / 16 && n / 0x40 == a * 1024 + b * 4 + c / 64
  {
  }

  lemma Remainder64(n: nat, q: int, r: nat)
    requires n == 64 * q + r && r < 64
    ensures n % 64 == r
  {
  }

  lemma Masked(a: Byte, b: Byte, c: Byte)
    ensures (a * 16 + b / 16) % 64 == a % 4 * 16 + b / 16
    ensures (a * 1024 + b * 4 + c / 64) % 64 == b % 16 * 4 + c / 64
    ensures Packed(a, b, c) >= 0 && Packed(a, b, c) % 64 == c % 64
  {
    Remainder64(a * 16 + b / 16, a / 4, a % 4 * 16 + b / 16);
    Remainder64(a * 1024 + b * 4 + c / 64, a * 16 + b / 16, b % 16 * 4 + c / 64);
    Remainder64(Packed(a, b, c), a * 1024 + b * 4 + c / 64, c % 64);
  }

  /** They are the digits of the three bytes. */
  lemma DigitsOfThree(a: Byte, b: Byte, c: Byte)
    ensures Packed(a, b, c) >= 0
    ensures Digits(Packed(a, b, c))
      == [Character(a / 4), Character(a % 4 * 16 + b / 16), Character(b % 16 * 4 + c / 64), Character(c % 64)]
  {
    Shifted(a, b, c);
    Masked(a, b, c);
    var n: nat := Packed(a, b, c);
    SameCharacters(n / 0x40000 % 64, n / 0x1000 % 64, n / 0x40 % 64, n % 64,
                   a / 4, a % 4 * 16 + b / 16, b % 16 * 4 + c / 64, c % 64);
  }

  lemma SameCharacters(a: Digit, b: Digit, c: Digit, d: Digit, a': Digit, b': Digit, c': Digit, d': Digit)
    requires a == a' && b == b' && c == c' && d == d'
    ensures [Character(a), Character(b), Character(c), Character(d)]
      == [Character(a'), Character(b'), Character(c'), Character(d')]
  {
  }

  lemma EncodeMore(bytes: Bytes, i: nat)
    requires i + 3 <= |bytes|
    ensures Packed(bytes[i], bytes[i + 1], bytes[i + 2]) >= 0
    ensures Encode(bytes[i..]) == Digits(Packed(bytes[i], bytes[i + 1], bytes[i + 2])) + Encode(bytes[i + 3..])
  {
    DigitsOfThree(bytes[i], bytes[i + 1], bytes[i + 2]);
    assert bytes[i..][3..] == bytes[i + 3..];
  }

  lemma EncodeRest(bytes: Bytes, i: nat)
    requires i <= |bytes|
    ensures |bytes| - i == 1 ==> Packed(bytes[i], 0, 0) >= 0 && Encode(bytes[i..]) == Digits(Packed(bytes[i], 0, 0))[..2]
    ensures |bytes| - i == 2 ==>
      Packed(bytes[i], bytes[i + 1], 0) >= 0 && Encode(bytes[i..]) == Digits(Packed(bytes[i], bytes[i + 1], 0))[..3]
  {
    if |bytes| - i == 1 {
      DigitsOfThree(bytes[i], 0, 0);
    } else if |bytes| - i == 2 {
      DigitsOfThree(bytes[i], bytes[i + 1], 0);
    }
  }

  method EncodeBase64Url(bytes: Bytes) returns (out: Text)
    ensures out == Encode(bytes)
  {
    out := [];
    var i: nat := 0;
    while i + 3 <= |bytes|
      invariant i <= |bytes| && out + Encode(bytes[i..]) == Encode(bytes)
    {
      EncodeMore(bytes, i);
      out := out + Digits(Packed(bytes[i], bytes[i + 1], bytes[i + 2]));
      i := i + 3;
    }
    EncodeRest(bytes, i);
    assert |bytes| - i == 0 ==> Encode(bytes[i..]) == [];
    var rest := |bytes| - i;
    if rest == 1 {
      out := out + Digits(Packed(bytes[i], 0, 0))[..2];
    } else if rest == 2 {
      out := out + Digits(Packed(bytes[i], bytes[i + 1], 0))[..3];
    }
  }

  // ---- Decoding ----------------------------------------------------------------------------------

  /** How many values so many bits have; only 0, 2, 4 and 6 bits are ever left over. */
  function Values(bits: nat): nat {
    if bits == 0 then 1 else if bits == 2 then 4 else if bits == 4 then 16 else 64
  }

  /** The characters from `i` on, with `low` left over from before in `bits` bits. */
  function Decode(text: Text, i: nat, bits: nat, low: nat, out: Bytes): Option<Bytes>
    requires bits in {0, 2, 4, 6} && low < Values(bits)
    decreases |text| - i
  {
    if i >= |text| then Some(out)
    else
      match DigitOf(text[i])
      case None => None
      case Some(digit) =>
        if bits == 0 then Decode(text, i + 1, 6, digit, out)
        else
          var all: nat := low * 64 + digit;
          Decode(text, i + 1, bits - 2, all % Values(bits - 2), out + [all / Values(bits - 2)])
  }

  lemma DivideBy4(next: nat, q: int, all: nat)
    requires next == 4 * q + all
    ensures next / 4 == q + all / 4 && next % 4 == all % 4
  {
  }

  lemma DivideBy16(next: nat, q: int, all: nat)
    requires next == 16 * q + all
    ensures next / 16 == q + all / 16 && next % 16 == all % 16
  {
  }

  lemma Byte256(high: int, byte: nat)
    requires byte < 256
    ensures (256 * high + byte) % 256 == byte
  {
  }

  /** High bits do not matter for the next byte. */
  lemma LowBits(next: nat, high: int, all: nat, v: nat)
    requires v in {1, 4, 16} && next == v * (256 * high) + all && all < 256 * v
    ensures next / v % 256 == all / v && next % v == all % v
  {
    if v == 1 {
      Byte256(high, all);
    } else if v == 4 {
      DivideBy4(next, 256 * high, all);
      Byte256(high, all / 4);
    } else {
      DivideBy16(next, 256 * high, all);
      Byte256(high, all / 16);
    }
  }

  /** The masked accumulator of the source yields the same bytes. */
  lemma AccumulatedByte(value: nat, bits: nat, digit: Digit, all: nat)
    requires bits in {2, 4, 6} && value < 0x100_0000 && all == value % Values(bits) * 64 + digit
    ensures var next := (value * 64 + digit) % 0x100_0000;
      next / Values(bits - 2) % 256 == all / Values(bits - 2) && next % Values(bits - 2) == all % Values(bits - 2)
  {
    var next: nat := (value * 64 + digit) % 0x100_0000;
    var over := (value * 64 + digit) / 0x100_0000;
    assert value * 64 + digit == over * 0x100_0000 + next;
    if bits == 2 {
      LowBits(next, value / 4 - over * 0x1_0000, all, 1);
    } else if bits == 4 {
      LowBits(next, value / 16 - over * 0x4000, all, 4);
    } else {
      LowBits(next, value / 64 - over * 0x1000, all, 16);
    }
  }

  lemma FirstDigit(value: nat, digit: Digit)
    requires value < 0x100_0000
    ensures (value * 64 + digit) % 0x100_0000 % 64 == digit
  {
    var over := (value * 64 + digit) / 0x100_0000;
    assert (value * 64 + digit) % 0x100_0000 == 64 * (value - over * 0x4_0000) + digit;
  }

  method DecodeBase64Url(text: Text) returns (r: Option<Bytes>)
    ensures r == Decode(text, 0, 0, 0, [])
  {
    var out: Bytes, bits: nat, value: nat := [], 0, 0;
    for i := 0 to |text|
      invariant bits in {0, 2, 4, 6} && value < 0x100_0000
      invariant Decode(text, i, bits, value % Values(bits), out) == Decode(text, 0, 0, 0, [])
    {
      var digit := DigitOf(text[i]);
      if digit.None? {
        return None;
      }
      if bits == 0 {
        FirstDigit(value, digit.value);
      } else {
        AccumulatedByte(value, bits, digit.value, value % Values(bits) * 64 + digit.value);
      }
      value := (value * 64 + digit.value) % 0x100_0000;
      bits := bits + 6;
      if bits >= 8 {
        bits := bits - 8;
        out := out + [value / Values(bits) % 256];
      }
    }
    return Some(out);
  }

  // ---- Round trip -----------------------------------------------------------------------------------

  lemma DecodesDigit(text: Text, i: nat, bits: nat, low: nat, out: Bytes, digit: Digit)
    requires bits in {0, 2, 4, 6} && low < Values(bits) && i < |text| && text[i] == Character(digit)
    ensures bits == 0 ==> Decode(text, i, bits, low, out) == Decode(text, i + 1, 6, digit, out)
    ensures bits > 0 ==> var all: nat := low * 64 + digit;
      Decode(text, i, bits, low, out) == Decode(text, i + 1, bits - 2, all % Values(bits - 2), out + [all / Values(bits - 2)])
  {
    AlphabetRoundTrip(digit, text[i]);
  }

  /** Four digits give back their three bytes. */
  lemma DecodesThree(text: Text, i: nat, out: Bytes, a: Byte, b: Byte, c: Byte)
    requires i + 4 <= |text|
    requires text[i] == Character(a / 4) && text[i + 1] == Character(a % 4 * 16 + b / 16)
    requires text[i + 2] == Character(b % 16 * 4 + c / 64) && text[i + 3] == Character(c % 64)
    ensures Decode(text, i, 0, 0, out) == Decode(text, i + 4, 0, 0, out + [a] + [b] + [c])
  {
    DecodesTwo(text, i, out, a, b, c / 64);
    DecodesDigit(text, i + 3, 2, c / 64, out + [a] + [b], c % 64);
  }

  /** Three digits give back two bytes and what the third left over. */
  lemma DecodesTwo(text: Text, i: nat, out: Bytes, a: Byte, b: Byte, over: nat)
    requires i + 3 <= |text| && over < 4
    requires text[i] == Character(a / 4) && text[i + 1] == Character(a % 4 * 16 + b / 16)
    requires text[i + 2] == Character(b % 16 * 4 + over)
    ensures Decode(text, i, 0, 0, out) == Decode(text, i + 3, 2, over, out + [a] + [b])
  {
    DecodesOne(text, i, out, a, b / 16);
    DecodesDigit(text, i + 2, 4, b / 16, out + [a], b % 16 * 4 + over);
  }

  /** Two digits give back one byte and what the second left over. */
  lemma DecodesOne(text: Text, i: nat, out: Bytes, a: Byte, over: nat)
    requires i + 2 <= |text| && over < 16
    requires text[i] == Character(a / 4) && text[i + 1] == Character(a % 4 * 16 + over)
    ensures Decode(text, i, 0, 0, out) == Decode(text, i + 2, 4, over, out + [a])
  {
    DecodesDigit(text, i, 0, 0, out, a / 4);
    DecodesDigit(text, i + 1, 6, a / 4, out, a % 4 * 16 + over);
  }

  /** The last one or two bytes. */
  lemma {:induction false} DecodesRest(text: Text, i: nat, bytes: Bytes, out: Bytes)
    requires i <= |text| && text[i..] == Encode(bytes) && |bytes| in {1, 2}
    ensures Decode(text, i, 0, 0, out) == Some(out + bytes)
  {
    var code := text[i..];
    assert forall k :: 0 <= k < |code| ==> text[i + k] == code[k];
    if |bytes| == 1 {
      DecodesOne(text, i, out, bytes[0], 0);
      assert out + [bytes[0]] == out + bytes;
    } else {
      DecodesTwo(text, i, out, bytes[0], bytes[1], 0);
      assert out + [bytes[0]] + [bytes[1]] == out + bytes;
    }
  }

  lemma {:induction false} DecodesEncoded(text: Text, i: nat, bytes: Bytes, out: Bytes)
    requires i <= |text| && text[i..] == Encode(bytes)
    ensures Decode(text, i, 0, 0, out) == Some(out + bytes)
    decreases |bytes|
  {
    if |bytes| == 0 {
      assert out + bytes == out;
    } else if |bytes| <= 2 {
      DecodesRest(text, i, bytes, out);
    } else {
      var code := text[i..];
      assert forall k :: 0 <= k < |code| ==> text[i + k] == code[k];
      DecodesThree(text, i, out, bytes[0], bytes[1], bytes[2]);
      assert text[i + 4..] == code[4..] == Encode(bytes[3..]);
      DecodesEncoded(text, i + 4, bytes[3..], out + [bytes[0]] + [bytes[1]] + [bytes[2]]);
      assert out + [bytes[0]] + [bytes[1]] + [bytes[2]] + bytes[3..] == out + bytes;
    }
  }

  /** Decoding an encoding is the identity, for byte strings of any length. */
  lemma {:induction false} RoundTrip(bytes: Bytes)
    ensures Decode(Encode(bytes), 0, 0, 0, []) == Some(bytes)
  {
    assert Encode(bytes)[0..] == Encode(bytes);
    DecodesEncoded(Encode(bytes), 0, bytes, []);
    assert [] + bytes == bytes;
  }

  lemma {:induction false} EncodedLength(bytes: Bytes)
    ensures |Encode(bytes)| == (|bytes| * 4 + 2) / 3
    decreases |bytes|
  {
    if |bytes| > 2 {
      EncodedLength(bytes[3..]);
    }
  }

  // ---- Keys ---------------------------------------------------------------------------------------------

  const PREFIX: Text := [0x79, 0x61, 0x6B, 0x31, 0x2E]
  const KEY_BYTES: nat := 32
  const KEY_TEXT_LENGTH: nat := 43

  datatype KeyInput = Raw(bytes: Bytes) | Written(text: Text)

  /** `None` stands for `bad_key`. */
  method ParseAssetKey(key: KeyInput) returns (r: Option<Bytes>)
    ensures key.Raw? ==> r == if |key.bytes| == KEY_BYTES then Some(key.bytes) else None
    ensures key.Written? ==>
      forall raw: Bytes :: r == Some(raw) <==> |raw| == KEY_BYTES && key.text == PREFIX + Encode(raw)
  {
    if key.Raw? {
      return if |key.bytes| == KEY_BYTES then Some(key.bytes) else None;
    }
    forall raw: Bytes | |raw| == KEY_BYTES && key.text == PREFIX + Encode(raw)
      ensures |key.text| == |PREFIX| + KEY_TEXT_LENGTH && key.text[..|PREFIX|] == PREFIX
      ensures Decode(key.text[|PREFIX|..], 0, 0, 0, []) == Some(raw)
    {
      EncodedLength(raw);
      RoundTrip(raw);
      assert key.text[|PREFIX|..] == Encode(raw);
    }
    if |key.text| != |PREFIX| + KEY_TEXT_LENGTH || key.text[..|PREFIX|] != PREFIX {
      return None;
    }
    var text := key.text[|PREFIX|..];
    assert key.text == PREFIX + text;
    var raw := DecodeBase64Url(text);
    if raw.None? || |raw.value| != KEY_BYTES {
      return None;
    }
    var again := EncodeBase64Url(raw.value);
    return if again == text then raw else None;
  }
}
