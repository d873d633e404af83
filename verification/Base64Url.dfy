/** Unpadded base64url (section 5 of RFC 4648) as the standard library reads and writes it. */
module Base64Url {
  import opened Basics

  type Byte = x: int | 0 <= x < 256
  type Bytes = seq<Byte>

  type Sextet = x: int | 0 <= x < 64

  function Letter(n: Sextet): char {
    if n < 26 then ('A' as int + n) as char
    else if n < 52 then ('a' as int + (n - 26)) as char
    else if n < 62 then ('0' as int + (n - 52)) as char
    else if n == 62 then '-'
    else '_'
  }

  function Value(c: char): Option<Sextet> {
    if 'A' <= c <= 'Z' then Some(c as int - 'A' as int)
    else if 'a' <= c <= 'z' then Some(c as int - 'a' as int + 26)
    else if '0' <= c <= '9' then Some(c as int - '0' as int + 52)
    else if c == '-' then Some(62)
    else if c == '_' then Some(63)
    else None
  }

  /** Three bytes are four letters; one or two left over are two or three letters, and no padding. */
  function Encode(b: Bytes): string {
    if |b| == 0 then []
    else if |b| == 1 then [Letter(b[0] / 4), Letter(b[0] % 4 * 16)]
    else if |b| == 2 then [Letter(b[0] / 4), Letter(b[0] % 4 * 16 + b[1] / 16), Letter(b[1] % 16 * 4)]
    else
      [Letter(b[0] / 4), Letter(b[0] % 4 * 16 + b[1] / 16), Letter(b[1] % 16 * 4 + b[2] / 64), Letter(b[2] % 64)]
      + Encode(b[3..])
  }

  /** The decoder passes over line breaks, wherever they are. */
  function WithoutBreaks(s: string): string {
    if s == [] then []
    else if s[0] == '\r' || s[0] == '\n' then WithoutBreaks(s[1..])
    else [s[0]] + WithoutBreaks(s[1..])
  }

  /** Bits of the last letter that no byte needs are not looked at. */
  function DecodeLetters(s: string): Option<Bytes> {
    if |s| == 0 then Some([])
    else if |s| == 1 || Value(s[0]).None? || Value(s[1]).None? then None
    else
      var v0: Sextet, v1: Sextet := Value(s[0]).value, Value(s[1]).value;
      var first: Byte := v0 * 4 + v1 / 16;
      if |s| == 2 then Some([first])
      else if Value(s[2]).None? then None
      else
        var v2: Sextet := Value(s[2]).value;
        var second: Byte := v1 % 16 * 16 + v2 / 4;
        if |s| == 3 then Some([first, second])
        else if Value(s[3]).None? then None
        else
          var v3: Sextet := Value(s[3]).value;
          var third: Byte := v2 % 4 * 64 + v3;
          match DecodeLetters(s[4..])
          case None => None
          case Some(rest) => Some([first, second, third] + rest)
  }

  function Decode(s: string): Option<Bytes> {
    DecodeLetters(WithoutBreaks(s))
  }

  predicate IsLetter(c: char) {
    Value(c).Some?
  }

  lemma LetterHasItsValue(n: Sextet)
    ensures Value(Letter(n)) == Some(n)
  {
  }

  /** An encoded field has letters and nothing else: no dot, no line break. */
  lemma {:induction false} EncodedIsLetters(b: Bytes)
    ensures forall i :: 0 <= i < |Encode(b)| ==> IsLetter(Encode(b)[i])
  {
    if |b| >= 3 {
      EncodedIsLetters(b[3..]);
    }
  }

  lemma {:induction false} LettersHaveNoBreaks(s: string)
    requires forall i :: 0 <= i < |s| ==> IsLetter(s[i])
    ensures WithoutBreaks(s) == s
  {
    if s != [] {
      LettersHaveNoBreaks(s[1..]);
    }
  }

  lemma OneByte(b0: Byte)
    ensures DecodeLetters([Letter(b0 / 4), Letter(b0 % 4 * 16)]) == Some([b0])
  {
    LetterHasItsValue(b0 / 4);
    LetterHasItsValue(b0 % 4 * 16);
  }

  lemma TwoBytes(b0: Byte, b1: Byte)
    ensures DecodeLetters([Letter(b0 / 4), Letter(b0 % 4 * 16 + b1 / 16), Letter(b1 % 16 * 4)]) == Some([b0, b1])
  {
    LetterHasItsValue(b0 / 4);
    LetterHasItsValue(b0 % 4 * 16 + b1 / 16);
    LetterHasItsValue(b1 % 16 * 4);
  }

  lemma BytesOfSextets(b0: Byte, b1: Byte, b2: Byte)
    ensures b0 / 4 * 4 + (b0 % 4 * 16 + b1 / 16) / 16 == b0
    ensures (b0 % 4 * 16 + b1 / 16) % 16 * 16 + (b1 % 16 * 4 + b2 / 64) / 4 == b1
    ensures (b1 % 16 * 4 + b2 / 64) % 4 * 64 + b2 % 64 == b2
  {
  }

  lemma {:induction false} ThreeBytes(b0: Byte, b1: Byte, b2: Byte, s: string, tail: Bytes)
    requires DecodeLetters(s) == Some(tail)
    ensures DecodeLetters([Letter(b0 / 4), Letter(b0 % 4 * 16 + b1 / 16),
                           Letter(b1 % 16 * 4 + b2 / 64), Letter(b2 % 64)] + s)
            == Some([b0, b1, b2] + tail)
  {
    var letters := [Letter(b0 / 4), Letter(b0 % 4 * 16 + b1 / 16), Letter(b1 % 16 * 4 + b2 / 64), Letter(b2 % 64)];
    BytesOfSextets(b0, b1, b2);
    LetterHasItsValue(b0 / 4);
    LetterHasItsValue(b0 % 4 * 16 + b1 / 16);
    LetterHasItsValue(b1 % 16 * 4 + b2 / 64);
    LetterHasItsValue(b2 % 64);
    assert (letters + s)[4..] == s;
  }

  lemma {:induction false} LettersRoundTrip(b: Bytes)
    ensures DecodeLetters(Encode(b)) == Some(b)
  {
    if |b| >= 3 {
      LettersRoundTrip(b[3..]);
      ThreeBytes(b[0], b[1], b[2], Encode(b[3..]), b[3..]);
      assert b == [b[0], b[1], b[2]] + b[3..];
    } else if |b| == 2 {
      TwoBytes(b[0], b[1]);
      assert b == [b[0], b[1]];
    } else if |b| == 1 {
      OneByte(b[0]);
      assert b == [b[0]];
    }
  }

  /** "f", "fo" and "foobar" of section 10 of RFC 4648, without padding; and the two letters of this alphabet's own. */
  lemma KnownTexts()
    ensures Encode([102]) == "Zg" && Encode([102, 111]) == "Zm8"
    ensures Encode([102, 111, 111, 98, 97, 114]) == "Zm9vYmFy"
    ensures Encode([0xFB, 0xFF]) == "-_8"
  {
    assert [102 as Byte, 111, 111, 98, 97, 114][3..] == [98, 97, 114] && [98 as Byte, 97, 114][3..] == [];
    assert Encode([98, 97, 114]) == "YmFy";
  }

  /** What was encoded decodes to itself. */
  lemma {:induction false} RoundTrip(b: Bytes)
    ensures Decode(Encode(b)) == Some(b)
  {
    EncodedIsLetters(b);
    LettersHaveNoBreaks(Encode(b));
    LettersRoundTrip(b);
  }
}
