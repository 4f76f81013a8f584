/**
 * `btoa`, the encoder the upload action stores file content with: base64 as
 * in section 4 of RFC 4648 (alphabet A-Z a-z 0-9 + /, '=' padding) over a
 * "binary string" whose characters are all below 256. `Decode` is the
 * inverse, as used when the download route turns the text back into bytes.
 */
module Base64 {

  /** The character for a 6-bit value. */
  function DigitChar(v: int): (c: char)
    requires 0 <= v < 64
  {
    if v < 26 then ('A' as int + v) as char
    else if v < 52 then ('a' as int + (v - 26)) as char
    else if v < 62 then ('0' as int + (v - 52)) as char
    else if v == 62 then '+'
    else '/'
  }

  predicate IsDigitChar(c: char) {
    ('A' <= c <= 'Z') || ('a' <= c <= 'z') || ('0' <= c <= '9') || c == '+' || c == '/'
  }

  /** The 6-bit value of an alphabet character (0 for any other character). */
  function DigitValue(c: char): (v: int)
    ensures 0 <= v < 64
  {
    if 'A' <= c <= 'Z' then c as int - 'A' as int
    else if 'a' <= c <= 'z' then c as int - 'a' as int + 26
    else if '0' <= c <= '9' then c as int - '0' as int + 52
    else if c == '+' then 62
    else if c == '/' then 63
    else 0
  }

  /** Every 6-bit value has its own alphabet character, and reading it back gives the value. */
  lemma DigitRoundTrip(v: int)
    requires 0 <= v < 64
    ensures IsDigitChar(DigitChar(v)) && DigitValue(DigitChar(v)) == v
  {
  }

  /** A string `btoa` accepts: every character code fits in one byte. */
  predicate IsBinaryString(s: string) {
    forall i :: 0 <= i < |s| ==> s[i] as int < 256
  }

  predicate IsEncodedChar(c: char) {
    IsDigitChar(c) || c == '='
  }

  /** Three bytes a, b, c as four characters. */
  function Quad3(a: int, b: int, c: int): (r: string)
    requires 0 <= a < 256 && 0 <= b < 256 && 0 <= c < 256
  {
    [DigitChar(a / 4), DigitChar((a % 4) * 16 + b / 16), DigitChar((b % 16) * 4 + c / 64), DigitChar(c % 64)]
  }

  /** The last two bytes of an input, with one '=' of padding. */
  function Quad2(a: int, b: int): (r: string)
    requires 0 <= a < 256 && 0 <= b < 256
  {
    [DigitChar(a / 4), DigitChar((a % 4) * 16 + b / 16), DigitChar((b % 16) * 4), '=']
  }

  /** The last byte of an input, with two '=' of padding. */
  function Quad1(a: int): (r: string)
    requires 0 <= a < 256
  {
    [DigitChar(a / 4), DigitChar((a % 4) * 16), '=', '=']
  }

  /** `btoa(s)`. */
  function Btoa(s: string): (r: string)
    requires IsBinaryString(s)
    ensures |r| == 4 * ((|s| + 2) / 3)
    ensures forall i :: 0 <= i < |r| ==> IsEncodedChar(r[i])
  {
    if |s| == 0 then ""
    else if |s| == 1 then Quad1(s[0] as int)
    else if |s| == 2 then Quad2(s[0] as int, s[1] as int)
    else
      var rest := Btoa(s[3..]);
      assert (|s| + 2) / 3 == (|s[3..]| + 2) / 3 + 1;
      var q := Quad3(s[0] as int, s[1] as int, s[2] as int);
      assert forall i :: 0 <= i < |q| ==> IsEncodedChar(q[i]);
      q + rest
  }

  /** Base64 text back to the binary string, four characters at a time. */
  function Decode(e: string): string {
    if |e| < 4 then ""
    else
      var v0, v1, v2, v3 := DigitValue(e[0]), DigitValue(e[1]), DigitValue(e[2]), DigitValue(e[3]);
      var a := (v0 * 4 + v1 / 16) as char;
      if e[2] == '=' then [a]
      else
        var b := ((v1 % 16) * 16 + v2 / 4) as char;
        if e[3] == '=' then [a, b]
        else [a, b, ((v2 % 4) * 64 + v3) as char] + Decode(e[4..])
  }

  lemma Group3RoundTrip(a: int, b: int, c: int)
    requires 0 <= a < 256 && 0 <= b < 256 && 0 <= c < 256
    ensures var v0, v1, v2, v3 := a / 4, (a % 4) * 16 + b / 16, (b % 16) * 4 + c / 64, c % 64;
      v0 * 4 + v1 / 16 == a && (v1 % 16) * 16 + v2 / 4 == b && (v2 % 4) * 64 + v3 == c
  {
    var v1 := (a % 4) * 16 + b / 16;
    var v2 := (b % 16) * 4 + c / 64;
    assert v1 / 16 == a % 4 && v1 % 16 == b / 16;
    assert v2 / 4 == b % 16 && v2 % 4 == c / 64;
  }

  lemma DecodeQuad1(a: int)
    requires 0 <= a < 256
    ensures Decode(Quad1(a)) == [a as char]
  {
    Group3RoundTrip(a, 0, 0);
    DigitRoundTrip(a / 4);
    DigitRoundTrip((a % 4) * 16);
  }

  lemma DecodeQuad2(a: int, b: int)
    requires 0 <= a < 256 && 0 <= b < 256
    ensures Decode(Quad2(a, b)) == [a as char, b as char]
  {
    Group3RoundTrip(a, b, 0);
    DigitRoundTrip(a / 4);
    DigitRoundTrip((a % 4) * 16 + b / 16);
    DigitRoundTrip((b % 16) * 4);
  }

  lemma DecodeQuad3(a: int, b: int, c: int, rest: string)
    requires 0 <= a < 256 && 0 <= b < 256 && 0 <= c < 256
    ensures Decode(Quad3(a, b, c) + rest) == [a as char, b as char, c as char] + Decode(rest)
  {
    Group3RoundTrip(a, b, c);
    DigitRoundTrip(a / 4);
    DigitRoundTrip((a % 4) * 16 + b / 16);
    DigitRoundTrip((b % 16) * 4 + c / 64);
    DigitRoundTrip(c % 64);
    var e := Quad3(a, b, c) + rest;
    assert e[..4] == Quad3(a, b, c) && e[4..] == rest;
  }

  lemma DecodeBtoaShort(s: string)
    requires IsBinaryString(s) && |s| <= 2
    ensures Decode(Btoa(s)) == s
  {
    if |s| == 1 {
      DecodeQuad1(s[0] as int);
      assert s == [s[0]];
    } else if |s| == 2 {
      DecodeQuad2(s[0] as int, s[1] as int);
      assert s == [s[0], s[1]];
    }
  }

  lemma DecodeBtoaStep(s: string)
    requires IsBinaryString(s) && |s| > 2
    ensures Decode(Btoa(s)) == s[..3] + Decode(Btoa(s[3..]))
  {
    var x, y, z := s[0], s[1], s[2];
    var rest := Btoa(s[3..]);
    assert Btoa(s) == Quad3(x as int, y as int, z as int) + rest;
    DecodeQuad3(x as int, y as int, z as int, rest);
    CharCodeRoundTrip(x);
    CharCodeRoundTrip(y);
    CharCodeRoundTrip(z);
    SplitThree(s);
  }

  lemma CharCodeRoundTrip(c: char)
    requires c as int < 256
    ensures (c as int) as char == c
  {
  }

  lemma SplitThree(s: string)
    requires |s| > 2
    ensures s[..3] == [s[0], s[1], s[2]]
  {
  }

  /** Decoding what `btoa` produced gives back the original binary string. */
  lemma {:induction false} DecodeBtoa(s: string)
    requires IsBinaryString(s)
    ensures Decode(Btoa(s)) == s
  {
    if |s| <= 2 {
      DecodeBtoaShort(s);
    } else {
      DecodeBtoaStep(s);
      DecodeBtoa(s[3..]);
      assert s == s[..3] + s[3..];
    }
  }
}
