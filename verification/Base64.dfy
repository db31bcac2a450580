/** The base64 encoding of section 4 of RFC 4648, as the browser's btoa produces it. */
module Base64 {
  import opened Options

  type byte = x: int | 0 <= x < 256
  type sextet = x: int | 0 <= x < 64

  function Digit(x: sextet): char {
    if x < 26 then ('A' as int + x) as char
    else if x < 52 then ('a' as int + x - 26) as char
    else if x < 62 then ('0' as int + x - 52) as char
    else if x == 62 then '+' else '/'
  }

  predicate IsDigit(c: char) {
    'A' <= c <= 'Z' || 'a' <= c <= 'z' || '0' <= c <= '9' || c == '+' || c == '/'
  }

  function DigitValue(c: char): sextet
    requires IsDigit(c)
  {
    if 'A' <= c <= 'Z' then c as int - 'A' as int
    else if 'a' <= c <= 'z' then c as int - 'a' as int + 26
    else if '0' <= c <= '9' then c as int - '0' as int + 52
    else if c == '+' then 62 else 63
  }

  lemma DigitRoundTrip(x: sextet)
    ensures IsDigit(Digit(x)) && DigitValue(Digit(x)) == x
  {
  }

  /** Three bytes as four groups of six bits. */
  function Sextet1(a: byte): sextet { a / 4 }
  function Sextet2(a: byte, b: byte): sextet { a % 4 * 16 + b / 16 }
  function Sextet3(b: byte, c: byte): sextet { b % 16 * 4 + c / 64 }
  function Sextet4(c: byte): sextet { c % 64 }

  function Encode(bytes: seq<byte>): string {
    if bytes == [] then ""
    else if |bytes| == 1 then
      [Digit(Sextet1(bytes[0])), Digit(Sextet2(bytes[0], 0)), '=', '=']
    else if |bytes| == 2 then
      [Digit(Sextet1(bytes[0])), Digit(Sextet2(bytes[0], bytes[1])), Digit(Sextet3(bytes[1], 0)), '=']
    else
      [Digit(Sextet1(bytes[0])), Digit(Sextet2(bytes[0], bytes[1])),
       Digit(Sextet3(bytes[1], bytes[2])), Digit(Sextet4(bytes[2]))] + Encode(bytes[3..])
  }

  // ---- The encoding, group by group ----

  /** The digits are the capital letters, the small ones, the ten numerals, plus and slash. */
  lemma DigitsAre(x: sextet)
    ensures Digit(0) == 'A' && Digit(25) == 'Z' && Digit(26) == 'a' && Digit(51) == 'z'
    ensures Digit(52) == '0' && Digit(61) == '9' && Digit(62) == '+' && Digit(63) == '/'
    ensures x !in {25, 51, 61, 62, 63} ==> Digit(x + 1) as int == Digit(x) as int + 1
  {
  }

  /** The 24 bits of three bytes. */
  function Bits(a: byte, b: byte, c: byte): nat {
    a * 0x10000 + b * 0x100 + c
  }

  lemma BitsAreDigits(a: byte, b: byte, c: byte)
    ensures Bits(a, b, c) == Sextet1(a) * 0x40000 + Sextet2(a, b) * 0x1000 + Sextet3(b, c) * 0x40 + Sextet4(c)
  {
    assert a == a / 4 * 4 + a % 4 && b == b / 16 * 16 + b % 16 && c == c / 64 * 64 + c % 64;
  }

  /** Four digits stand for 24 bits, six each. */
  predicate Stands(d: string, bits: nat) {
    && |d| == 4 && IsDigit(d[0]) && IsDigit(d[1]) && IsDigit(d[2]) && IsDigit(d[3])
    && bits == DigitValue(d[0]) * 0x40000 + DigitValue(d[1]) * 0x1000 + DigitValue(d[2]) * 0x40 + DigitValue(d[3])
  }

  lemma FourStand(x: sextet, y: sextet, z: sextet, w: sextet)
    ensures Stands([Digit(x), Digit(y), Digit(z), Digit(w)], x * 0x40000 + y * 0x1000 + z * 0x40 + w)
  {
    DigitRoundTrip(x);
    DigitRoundTrip(y);
    DigitRoundTrip(z);
    DigitRoundTrip(w);
  }

  lemma GroupStands(a: byte, b: byte, c: byte)
    ensures Stands([Digit(Sextet1(a)), Digit(Sextet2(a, b)), Digit(Sextet3(b, c)), Digit(Sextet4(c))], Bits(a, b, c))
  {
    BitsAreDigits(a, b, c);
    FourStand(Sextet1(a), Sextet2(a, b), Sextet3(b, c), Sextet4(c));
  }

  /** Three bytes become the four digits of their 24 bits, and the rest is encoded after them. */
  lemma {:induction false} EncodeThree(a: byte, b: byte, c: byte, rest: seq<byte>) returns (d: string)
    ensures Stands(d, Bits(a, b, c)) && Encode([a, b, c] + rest) == d + Encode(rest)
  {
    d := [Digit(Sextet1(a)), Digit(Sextet2(a, b)), Digit(Sextet3(b, c)), Digit(Sextet4(c))];
    GroupStands(a, b, c);
    assert ([a, b, c] + rest)[3..] == rest;
  }

  /** Two bytes at the end become the first three digits, of bits filled up with zeros, and one "=". */
  lemma {:induction false} EncodeTwo(a: byte, b: byte) returns (d: string)
    ensures Stands(d + "A", Bits(a, b, 0)) && Encode([a, b]) == d + "="
  {
    d := [Digit(Sextet1(a)), Digit(Sextet2(a, b)), Digit(Sextet3(b, 0))];
    GroupStands(a, b, 0);
    assert d + "A" == d + [Digit(Sextet4(0))];
  }

  /** One byte becomes the first two digits, and "==". */
  lemma {:induction false} EncodeOne(a: byte) returns (d: string)
    ensures Stands(d + "AA", Bits(a, 0, 0)) && Encode([a]) == d + "=="
  {
    d := [Digit(Sextet1(a)), Digit(Sextet2(a, 0))];
    GroupStands(a, 0, 0);
    ZeroDigits(d);
    EncodedOne(a);
  }

  lemma ZeroDigits(d: string)
    ensures d + "AA" == d + [Digit(Sextet3(0, 0)), Digit(Sextet4(0))]
  {
    assert Digit(0) == 'A';
  }

  lemma {:induction false} EncodedOne(a: byte)
    ensures Encode([a]) == [Digit(Sextet1(a)), Digit(Sextet2(a, 0))] + "=="
  {
    var d := [Digit(Sextet1(a)), Digit(Sextet2(a, 0)), '=', '='];
    assert Encode([a]) == d;
  }

  // ---- Decoding ----

  function First(x: sextet, y: sextet): byte {
    x * 4 + y / 16
  }

  function Second(y: sextet, z: sextet): byte {
    y % 16 * 16 + z / 4
  }

  function Third(z: sextet, w: sextet): byte {
    z % 4 * 64 + w
  }

  /** The bytes of the last group, which may be padded. */
  function DecodeLast(s: string): Option<seq<byte>>
    requires |s| == 4
  {
    if !IsDigit(s[0]) || !IsDigit(s[1]) then None
    else
      var x, y := DigitValue(s[0]), DigitValue(s[1]);
      if s[2] == '=' && s[3] == '=' then Some([First(x, y)])
      else if !IsDigit(s[2]) then None
      else
        var z := DigitValue(s[2]);
        if s[3] == '=' then Some([First(x, y), Second(y, z)])
        else if !IsDigit(s[3]) then None
        else Some([First(x, y), Second(y, z), Third(z, DigitValue(s[3]))])
  }

  function Decode(s: string): Option<seq<byte>> {
    if s == "" then Some([])
    else if |s| < 4 then None
    else if |s| == 4 then DecodeLast(s)
    else if !IsDigit(s[0]) || !IsDigit(s[1]) || !IsDigit(s[2]) || !IsDigit(s[3]) then None
    else
      var x, y, z, w := DigitValue(s[0]), DigitValue(s[1]), DigitValue(s[2]), DigitValue(s[3]);
      match Decode(s[4..])
      case Some(rest) => Some([First(x, y), Second(y, z), Third(z, w)] + rest)
      case None => None
  }

  lemma BlockRoundTrip(a: byte, b: byte, c: byte)
    ensures First(Sextet1(a), Sextet2(a, b)) == a
    ensures Second(Sextet2(a, b), Sextet3(b, c)) == b
    ensures Third(Sextet3(b, c), Sextet4(c)) == c
  {
  }

  lemma {:induction false} DecodeGroup(x: sextet, y: sextet, z: sextet, w: sextet, rest: string)
    requires |rest| >= 4
    ensures Decode([Digit(x), Digit(y), Digit(z), Digit(w)] + rest) ==
            match Decode(rest)
            case Some(more) => Some([First(x, y), Second(y, z), Third(z, w)] + more)
            case None => None
  {
    var s := [Digit(x), Digit(y), Digit(z), Digit(w)] + rest;
    assert s[4..] == rest;
    DigitRoundTrip(x);
    DigitRoundTrip(y);
    DigitRoundTrip(z);
    DigitRoundTrip(w);
  }

  lemma DecodeFinal(x: sextet, y: sextet, z: sextet, w: sextet)
    ensures Decode([Digit(x), Digit(y), '=', '=']) == Some([First(x, y)])
    ensures Decode([Digit(x), Digit(y), Digit(z), '=']) == Some([First(x, y), Second(y, z)])
    ensures Decode([Digit(x), Digit(y), Digit(z), Digit(w)]) == Some([First(x, y), Second(y, z), Third(z, w)])
  {
    DigitRoundTrip(x);
    DigitRoundTrip(y);
    DigitRoundTrip(z);
    DigitRoundTrip(w);
  }

  lemma {:induction false} EncodedLength(bytes: seq<byte>)
    ensures bytes != [] ==> |Encode(bytes)| >= 4
  {
  }

  lemma RoundTripOne(a: byte)
    ensures Decode(Encode([a])) == Some([a])
  {
    var x, y := Sextet1(a), Sextet2(a, 0);
    FirstByte(a);
    assert Encode([a]) == [Digit(x), Digit(y), '=', '='];
    DecodePadded(x, y, a);
  }

  lemma FirstByte(a: byte)
    ensures First(Sextet1(a), Sextet2(a, 0)) == a
  {
  }

  lemma DecodePadded(x: sextet, y: sextet, a: byte)
    requires First(x, y) == a
    ensures Decode([Digit(x), Digit(y), '=', '=']) == Some([a])
  {
    DecodeFinal(x, y, 0, 0);
  }

  lemma RoundTripTwo(a: byte, b: byte)
    ensures Decode(Encode([a, b])) == Some([a, b])
  {
    BlockRoundTrip(a, b, 0);
    DecodeFinal(Sextet1(a), Sextet2(a, b), Sextet3(b, 0), 0);
  }

  /** Decoding undoes encoding on every byte sequence. */
  lemma {:induction false} RoundTrip(bytes: seq<byte>)
    ensures Decode(Encode(bytes)) == Some(bytes)
  {
    if bytes == [] {
    } else if |bytes| == 1 {
      assert bytes == [bytes[0]];
      RoundTripOne(bytes[0]);
    } else if |bytes| == 2 {
      assert bytes == [bytes[0], bytes[1]];
      RoundTripTwo(bytes[0], bytes[1]);
    } else {
      assert bytes == [bytes[0], bytes[1], bytes[2]] + bytes[3..];
      RoundTripGroup(bytes[0], bytes[1], bytes[2], bytes[3..]);
      RoundTrip(bytes[3..]);
    }
  }

  lemma {:induction false} RoundTripGroup(a: byte, b: byte, c: byte, rest: seq<byte>)
    ensures Decode(Encode([a, b, c] + rest)) ==
            match Decode(Encode(rest)) case Some(more) => Some([a, b, c] + more) case None => None
  {
    var x, y, z, w := Sextet1(a), Sextet2(a, b), Sextet3(b, c), Sextet4(c);
    BlockRoundTrip(a, b, c);
    assert ([a, b, c] + rest)[3..] == rest;
    assert Encode([a, b, c] + rest) == [Digit(x), Digit(y), Digit(z), Digit(w)] + Encode(rest);
    if rest == [] {
      assert [Digit(x), Digit(y), Digit(z), Digit(w)] + "" == [Digit(x), Digit(y), Digit(z), Digit(w)];
      DecodeFinal(x, y, z, w);
      assert [a, b, c] + [] == [a, b, c];
    } else {
      EncodedLength(rest);
      DecodeGroup(x, y, z, w, Encode(rest));
    }
  }

  predicate IsBase64Char(c: char) {
    IsDigit(c) || c == '='
  }

  lemma {:induction false} EncodedChars(bytes: seq<byte>)
    ensures forall i :: 0 <= i < |Encode(bytes)| ==> IsBase64Char(Encode(bytes)[i])
  {
    if |bytes| >= 3 { EncodedChars(bytes[3..]); }
  }
}
