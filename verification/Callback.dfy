/**
 * The signature on a callback: how the service makes it and how the SDK checks it.
 *
 * Header values are bytes. HMAC (section 2 of RFC 2104) is a parameter: a function of the
 * secret and the signed bytes.
 */
module Callback {
  import opened Basics
  import opened Base64Url
  import opened Cuts

  const SECOND: int := 1_000_000_000
  const DEFAULT_TOLERANCE: int := 300 * SECOND
  const TWO_63: int := 0x8000_0000_0000_0000
  const MAX_DURATION: int := TWO_63 - 1
  const MIN_DURATION: int := -TWO_63
  /** From the year 1, where the library's clock starts, to 1970. */
  const UNIX_TO_INTERNAL: int := 62_135_596_800

  const DOT: Byte := 46
  const EQUALS: Byte := 61
  const MINUS: Byte := 45
  const PLUS: Byte := 43
  const VERSION: Bytes := [118, 49]

  type Mac = (Bytes, Bytes) -> Bytes

  predicate FitsInt64(n: int) {
    -TWO_63 <= n < TWO_63
  }

  // --- decimal ---------------------------------------------------------------

  function FormatNat(n: nat): Bytes {
    if n < 10 then [48 + n] else FormatNat(n / 10) + [48 + n % 10]
  }

  function FormatInt(n: int): Bytes {
    if n < 0 then [MINUS] + FormatNat(-n) else FormatNat(n)
  }

  predicate IsDigit(b: Byte) {
    48 <= b <= 57
  }

  function ParseDigits(s: Bytes): Option<nat> {
    if s == [] then Some(0)
    else
      var last, rest := s[|s| - 1], ParseDigits(s[..|s| - 1]);
      if IsDigit(last) && rest.Some? then Some(rest.value * 10 + (last - 48)) else None
  }

  /** ParseInt(s, 10, 64): a sign or none, at least one digit, and within 64 bits. */
  function ParseInt(s: Bytes): Option<int> {
    if s == [] then None
    else
      var negative := s[0] == MINUS;
      var digits := if s[0] == MINUS || s[0] == PLUS then s[1..] else s;
      var n := ParseDigits(digits);
      if digits == [] || n.None? then None
      else
        var value: int := if negative then 0 - n.value else n.value;
        if FitsInt64(value) then Some(value) else None
  }

  lemma {:induction false} DigitsRoundTrip(n: nat)
    ensures FormatNat(n) != [] && (forall b :: b in FormatNat(n) ==> IsDigit(b))
    ensures ParseDigits(FormatNat(n)) == Some(n)
  {
    if n < 10 {
      assert FormatNat(n)[..0] == [];
      assert ParseDigits([]) == Some(0);
    } else {
      DigitsRoundTrip(n / 10);
      var s := FormatNat(n);
      assert s[..|s| - 1] == FormatNat(n / 10);
    }
  }

  /** A number comes back from its text if it fits 64 bits, and is refused if it does not. */
  lemma FormatsRoundTrip(n: int)
    ensures ParseInt(FormatInt(n)) == if FitsInt64(n) then Some(n) else None
    ensures DOT !in FormatInt(n)
  {
    DigitsRoundTrip(if n < 0 then -n else n);
    if n < 0 {
      assert FormatInt(n)[1..] == FormatNat(-n);
    } else {
      assert FormatNat(n)[0] in FormatNat(n);
    }
  }

  /** Whatever parses has no dot in it. */
  lemma {:induction false} DigitsHaveNoDot(s: Bytes)
    requires ParseDigits(s).Some?
    ensures DOT !in s
  {
    if s != [] {
      DigitsHaveNoDot(s[..|s| - 1]);
      assert s == s[..|s| - 1] + [s[|s| - 1]];
    }
  }

  lemma ParsedHasNoDot(s: Bytes)
    requires ParseInt(s).Some?
    ensures DOT !in s
  {
    if s[0] == MINUS || s[0] == PLUS {
      DigitsHaveNoDot(s[1..]);
      assert s == [s[0]] + s[1..];
    } else {
      DigitsHaveNoDot(s);
    }
  }

  /** What parses is one sign at most and then digits, at least one, and it fits 64 bits. */
  lemma ParsedIsANumber(s: Bytes)
    requires ParseInt(s).Some?
    ensures var digits := if s[0] == MINUS || s[0] == PLUS then s[1..] else s;
            digits != [] && forall i :: 0 <= i < |digits| ==> 48 <= digits[i] <= 57
    ensures -0x8000_0000_0000_0000 <= ParseInt(s).value < 0x8000_0000_0000_0000
  {
    DigitsAreDigits(if s[0] == MINUS || s[0] == PLUS then s[1..] else s);
  }

  lemma {:induction false} DigitsAreDigits(s: Bytes)
    ensures ParseDigits(s).Some? <==> forall i :: 0 <= i < |s| ==> IsDigit(s[i])
  {
    if s != [] {
      DigitsAreDigits(s[..|s| - 1]);
    }
  }

  // --- hex -------------------------------------------------------------------

  type Nibble = x: int | 0 <= x < 16

  function HexDigit(n: Nibble): Byte {
    if n < 10 then 48 + n else 97 + (n - 10)
  }

  /** Either case is read; lower case is written. */
  function HexValue(b: Byte): Option<Nibble> {
    if 48 <= b <= 57 then Some(b - 48)
    else if 97 <= b <= 102 then Some(b - 97 + 10)
    else if 65 <= b <= 70 then Some(b - 65 + 10)
    else None
  }

  function EncodeHex(b: Bytes): Bytes {
    if b == [] then [] else [HexDigit(b[0] / 16), HexDigit(b[0] % 16)] + EncodeHex(b[1..])
  }

  function DecodeHex(s: Bytes): Option<Bytes> {
    if s == [] then Some([])
    else if |s| == 1 then None
    else
      var hi, lo, rest := HexValue(s[0]), HexValue(s[1]), DecodeHex(s[2..]);
      if hi.Some? && lo.Some? && rest.Some? then Some([hi.value * 16 + lo.value] + rest.value) else None
  }

  lemma {:induction false} HexRoundTrip(b: Bytes)
    ensures DecodeHex(EncodeHex(b)) == Some(b)
  {
    if b != [] {
      HexRoundTrip(b[1..]);
      assert EncodeHex(b)[2..] == EncodeHex(b[1..]);
      assert HexValue(HexDigit(b[0] / 16)) == Some(b[0] / 16) && HexValue(HexDigit(b[0] % 16)) == Some(b[0] % 16);
      assert b == [b[0]] + b[1..];
    }
  }

  /** Two texts as every other implementation has them: "-1750" and "00ab". */
  lemma KnownTexts()
    ensures FormatInt(0) == [48] && FormatInt(-1750) == [45, 49, 55, 53, 48]
    ensures EncodeHex([0x00, 0xAB]) == [48, 48, 97, 98]
  {
    assert FormatNat(1) == [49] && FormatNat(17) == [49, 55] && FormatNat(175) == [49, 55, 53];
    assert [0x00, 0xAB][1..] == [0xAB as Byte] && EncodeHex([0xAB]) == [97, 98];
  }

  predicate IsHexDigit(b: Byte) {
    48 <= b <= 57 || 65 <= b <= 70 || 97 <= b <= 102
  }

  /** What decodes is hex digits, two for each byte, in either case. */
  lemma {:induction false} HexReads(s: Bytes)
    ensures DecodeHex(s).Some? <==> |s| % 2 == 0 && forall i :: 0 <= i < |s| ==> IsHexDigit(s[i])
    ensures DecodeHex(s).Some? ==> 2 * |DecodeHex(s).value| == |s|
    decreases |s|
  {
    if |s| >= 2 {
      HexReads(s[2..]);
      assert forall i :: 2 <= i < |s| ==> s[i] == s[2..][i - 2];
    }
  }

  /** A capital letter is worth what the small one is. */
  lemma EitherCase(n: Nibble)
    requires n >= 10
    ensures HexValue(65 + (n - 10)) == HexValue(97 + (n - 10)) == Some(n)
  {
  }

  // --- the signed bytes ------------------------------------------------------

  function SignedBytes(timestamp: Bytes, body: Bytes): Bytes {
    timestamp + [DOT] + body
  }

  /** Dot-free timestamps: the signed bytes split into timestamp and body in one way. */
  lemma SignedBytesSplit(t: Bytes, body: Bytes, t': Bytes, body': Bytes)
    requires DOT !in t && DOT !in t' && SignedBytes(t, body) == SignedBytes(t', body')
    ensures t == t' && body == body'
  {
    CutOnce(DOT, t, body, t', body');
  }

  // --- signing ---------------------------------------------------------------

  datatype Headers = Headers(signature: Bytes, timestamp: Bytes)

  /** Whole seconds, as the clock has them. */
  function UnixSeconds(at: Time): int {
    at / SECOND
  }

  function Sign(mac: Mac, secret: Bytes, at: Time, body: Bytes): Headers {
    var timestamp := FormatInt(UnixSeconds(at));
    Headers(VERSION + [EQUALS] + EncodeHex(mac(secret, SignedBytes(timestamp, body))), timestamp)
  }

  // --- verifying -------------------------------------------------------------

  datatype VerifyError = SignatureMissing | SignatureInvalid | TooOld

  /** strings.Cut at the first `=`. */
  function CutAtEquals(s: Bytes): Option<(Bytes, Bytes)> {
    if s == [] then None
    else if s[0] == EQUALS then Some(([], s[1..]))
    else match CutAtEquals(s[1..]) {
      case None => None
      case Some(cut) => Some(([s[0]] + cut.0, cut.1))
    }
  }

  predicate Checks(mac: Mac, secret: Bytes, h: Headers, body: Bytes) {
    match CutAtEquals(h.signature)
    case None => false
    case Some(cut) => cut.0 == VERSION && DecodeHex(cut.1) == Some(mac(secret, SignedBytes(h.timestamp, body)))
  }

  function Wrap64(n: int): int {
    (n + TWO_63) % (2 * TWO_63) - TWO_63
  }

  /** How far now is past a unix time, exactly. The library counts seconds from the year 1 in 64 bits. */
  function Past(now: Time, seconds: int): int {
    now - (Wrap64(seconds + UNIX_TO_INTERNAL) - UNIX_TO_INTERNAL) * SECOND
  }

  /** A difference that does not fit a duration becomes the nearest one that does. */
  function Saturated(d: int): int {
    if d < MIN_DURATION then MIN_DURATION else if d > MAX_DURATION then MAX_DURATION else d
  }

  /** Negating the least duration gives it back. */
  function Drift(now: Time, seconds: int): int {
    var d := Saturated(Past(now, seconds));
    if d < 0 then Wrap64(-d) else d
  }

  function Fresh(now: Time, tolerance: int, timestamp: Bytes): Option<VerifyError> {
    match ParseInt(timestamp)
    case None => Some(SignatureInvalid)
    case Some(seconds) => if Drift(now, seconds) > tolerance then Some(TooOld) else None
  }

  function Verify(mac: Mac, secret: Bytes, tolerance: int, now: Time, h: Headers, body: Bytes): Option<VerifyError> {
    if h.signature == [] || h.timestamp == [] then Some(SignatureMissing)
    else if !Checks(mac, secret, h, body) then Some(SignatureInvalid)
    else Fresh(now, tolerance, h.timestamp)
  }

  // --- what holds ------------------------------------------------------------

  predicate IsTolerance(d: int) {
    0 < d <= MAX_DURATION
  }

  /**
   * What Fresh lets through: within the tolerance either way; or too far ahead for a duration
   * to say; or anything, under a tolerance that is the longest duration there is.
   */
  predicate LetThrough(now: Time, tolerance: int, seconds: int) {
    -tolerance <= Past(now, seconds) <= tolerance || Past(now, seconds) <= MIN_DURATION || tolerance == MAX_DURATION
  }

  lemma FreshExactlyWhen(now: Time, tolerance: int, seconds: int)
    requires IsTolerance(tolerance)
    ensures Drift(now, seconds) <= tolerance <==> LetThrough(now, tolerance, seconds)
  {
    var d := Saturated(Past(now, seconds));
    if MIN_DURATION < d < 0 {
      assert -d + TWO_63 < 2 * TWO_63;
      assert Wrap64(-d) == -d;
    } else if d == MIN_DURATION {
      assert -d == TWO_63 && Wrap64(-d) == d;
    }
  }

  /** For any time the library can count, the difference is the plain one. */
  lemma PastIsPlain(now: Time, seconds: int)
    requires -TWO_63 <= seconds + UNIX_TO_INTERNAL < TWO_63
    ensures Past(now, seconds) == now - seconds * SECOND
  {
    var n := seconds + UNIX_TO_INTERNAL;
    assert (n + TWO_63) % (2 * TWO_63) == n + TWO_63;
  }

  lemma SignedChecks(mac: Mac, secret: Bytes, at: Time, body: Bytes)
    ensures Checks(mac, secret, Sign(mac, secret, at, body), body)
    ensures CutAtEquals(Sign(mac, secret, at, body).signature)
            == Some((VERSION, EncodeHex(mac(secret, SignedBytes(Sign(mac, secret, at, body).timestamp, body)))))
  {
    var sum := mac(secret, SignedBytes(FormatInt(UnixSeconds(at)), body));
    var s := VERSION + [EQUALS] + EncodeHex(sum);
    assert s[1..][1..] == [EQUALS] + EncodeHex(sum) && s[1..][1..][1..] == EncodeHex(sum);
    assert CutAtEquals(s[1..][1..]) == Some(([], EncodeHex(sum)));
    assert s[1..][0] == 49 && [49 as Byte] + [] == [49];
    assert CutAtEquals(s[1..]) == Some(([49], EncodeHex(sum)));
    HexRoundTrip(sum);
  }

  /** The whole second that a moment is in. */
  predicate IsInSecond(at: Time, s: int) {
    s * SECOND <= at < (s + 1) * SECOND
  }

  lemma UnixSecondsIs(at: Time)
    ensures UnixSeconds(at) * SECOND <= at < (UnixSeconds(at) + 1) * SECOND
    ensures forall s :: IsInSecond(at, s) ==> s == UnixSeconds(at)
  {
  }

  /** What goes over the wire: the version, the code in hex over timestamp, dot and body; and the second, in decimal. */
  lemma SignedIs(mac: Mac, secret: Bytes, at: Time, body: Bytes, s: int)
    requires IsInSecond(at, s) && FitsInt64(s)
    ensures var h := Sign(mac, secret, at, body);
            && ParseInt(h.timestamp) == Some(s)
            && h.signature == [118, 49, 61] + EncodeHex(mac(secret, h.timestamp + [46] + body))
  {
    UnixSecondsIs(at);
    FormatsRoundTrip(s);
  }

  /** The text after "v1=", if the signature starts so. */
  lemma {:induction false} CutIs(s: Bytes)
    ensures CutAtEquals(s).Some? ==>
              && s == CutAtEquals(s).value.0 + [EQUALS] + CutAtEquals(s).value.1
              && EQUALS !in CutAtEquals(s).value.0
    ensures CutAtEquals(s).None? ==> EQUALS !in s
  {
    if s != [] && s[0] != EQUALS {
      CutIs(s[1..]);
      assert s == [s[0]] + s[1..];
    }
  }

  lemma {:induction false} ChecksExactlyWhen(mac: Mac, secret: Bytes, h: Headers, body: Bytes, hex: Bytes)
    ensures h.signature == [118, 49, 61] + hex ==>
              (Checks(mac, secret, h, body) <==> DecodeHex(hex) == Some(mac(secret, h.timestamp + [46] + body)))
    ensures |h.signature| < 3 || h.signature[..3] != [118, 49, 61] ==> !Checks(mac, secret, h, body)
  {
    CutIs(h.signature);
    var cut := CutAtEquals(h.signature);
    if h.signature == [118, 49, 61] + hex {
      assert h.signature[2] == EQUALS;
      CutOnce(EQUALS, [118, 49], hex, cut.value.0, cut.value.1);
    } else if cut.Some? && cut.value.0 == VERSION {
      assert h.signature[..3] == [118, 49, 61];
    }
  }

  /**
   * Of any headers and body, whoever made them: accepted if and only if the signature is the
   * version and the hex of the code over that very timestamp and body, and the timestamp is a
   * number that is let through. And which refusal it is otherwise.
   */
  lemma AcceptsExactlyWhen(mac: Mac, secret: Bytes, tolerance: int, now: Time, h: Headers, body: Bytes)
    requires IsTolerance(tolerance)
    ensures var signed := |h.signature| >= 3 && h.signature[..3] == [118, 49, 61]
                          && DecodeHex(h.signature[3..]) == Some(mac(secret, h.timestamp + [46] + body));
            var r := Verify(mac, secret, tolerance, now, h, body);
            && (r.None? <==>
                signed && ParseInt(h.timestamp).Some? && LetThrough(now, tolerance, ParseInt(h.timestamp).value))
            && (r == Some(SignatureMissing) <==> h.signature == [] || h.timestamp == [])
            && (r == Some(TooOld) <==>
                && signed && ParseInt(h.timestamp).Some?
                && !LetThrough(now, tolerance, ParseInt(h.timestamp).value))
  {
    if |h.signature| >= 3 && h.signature[..3] == [118, 49, 61] {
      assert h.signature == [118, 49, 61] + h.signature[3..];
      ChecksExactlyWhen(mac, secret, h, body, h.signature[3..]);
    } else {
      ChecksExactlyWhen(mac, secret, h, body, []);
    }
    if ParseInt(h.timestamp).Some? {
      FreshExactlyWhen(now, tolerance, ParseInt(h.timestamp).value);
    }
  }

  /**
   * What the service signs, for any secret, body and moment, the SDK accepts exactly when the
   * second it was signed in is let through; otherwise it is too old, and nothing else.
   */
  lemma SignedIsAcceptedExactlyWhen(mac: Mac, secret: Bytes, at: Time, s: int, body: Bytes, tolerance: int, now: Time)
    requires IsTolerance(tolerance) && IsInSecond(at, s) && FitsInt64(s)
    ensures Verify(mac, secret, tolerance, now, Sign(mac, secret, at, body), body)
            == if LetThrough(now, tolerance, s) then None else Some(TooOld)
  {
    UnixSecondsIs(at);
    SignedChecks(mac, secret, at, body);
    FormatsRoundTrip(s);
    FreshExactlyWhen(now, tolerance, s);
    assert FormatInt(s) != [];
  }

  /**
   * Within the range of a duration, the promise in its own words: the second it was signed in
   * began no further from now than the tolerance, either way.
   */
  lemma SignedIsAcceptedWithinTolerance(mac: Mac, secret: Bytes, at: Time, s: int, body: Bytes, tolerance: int,
                                        now: Time)
    requires 0 < tolerance < MAX_DURATION && IsInSecond(at, s)
    requires FitsInt64(s) && FitsInt64(s + UNIX_TO_INTERNAL) && now - s * SECOND > MIN_DURATION
    ensures Verify(mac, secret, tolerance, now, Sign(mac, secret, at, body), body).None?
            <==> -tolerance <= now - s * SECOND <= tolerance
  {
    PastIsPlain(now, s);
    SignedIsAcceptedExactlyWhen(mac, secret, at, s, body, tolerance, now);
  }

  /** So what arrives within the tolerance, less the second that the timestamp leaves out, is always accepted. */
  lemma SignedInTimeIsAccepted(mac: Mac, secret: Bytes, at: Time, body: Bytes, tolerance: int, now: Time)
    requires IsTolerance(tolerance) && 0 <= now - at <= tolerance - SECOND
    requires -TWO_63 * SECOND <= at < (TWO_63 - UNIX_TO_INTERNAL) * SECOND
    ensures Verify(mac, secret, tolerance, now, Sign(mac, secret, at, body), body).None?
  {
    var s := UnixSeconds(at);
    UnixSecondsIs(at);
    PastIsPlain(now, s);
    SignedIsAcceptedExactlyWhen(mac, secret, at, s, body, tolerance, now);
  }

  /** Signed three hundred years ahead, accepted in 1970 under the default tolerance. */
  lemma FarFutureIsAccepted(mac: Mac, secret: Bytes, body: Bytes)
    ensures Verify(mac, secret, DEFAULT_TOLERANCE, 0, Sign(mac, secret, 9_300_000_000 * SECOND, body), body).None?
  {
    PastIsPlain(0, 9_300_000_000);
    SignedIsAcceptedExactlyWhen(mac, secret, 9_300_000_000 * SECOND, 9_300_000_000, body, DEFAULT_TOLERANCE, 0);
  }

  /**
   * A signature vouches for one timestamp and one body. Sent with any others -- also ones in
   * which the dot was moved, so that the signed bytes are the same -- it is refused, as long
   * as the code does not collide on the two.
   */
  lemma SignatureIsForOnePair(mac: Mac, secret: Bytes, at: Time, body: Bytes, tolerance: int, now: Time,
                              timestamp': Bytes, body': Bytes, s: int)
    requires IsTolerance(tolerance) && IsInSecond(at, s) && FitsInt64(s)
    requires var h := Sign(mac, secret, at, body);
             mac(secret, SignedBytes(timestamp', body')) == mac(secret, SignedBytes(h.timestamp, body)) ==>
               SignedBytes(timestamp', body') == SignedBytes(h.timestamp, body)
    ensures var h := Sign(mac, secret, at, body);
            Verify(mac, secret, tolerance, now, h.(timestamp := timestamp'), body').None?
            <==> timestamp' == h.timestamp && body' == body && LetThrough(now, tolerance, s)
  {
    var h := Sign(mac, secret, at, body);
    UnixSecondsIs(at);
    SignedIsAcceptedExactlyWhen(mac, secret, at, s, body, tolerance, now);
    if Verify(mac, secret, tolerance, now, h.(timestamp := timestamp'), body').None? {
      SignedChecks(mac, secret, at, body);
      HexRoundTrip(mac(secret, SignedBytes(h.timestamp, body)));
      ParsedHasNoDot(timestamp');
      FormatsRoundTrip(s);
      SignedBytesSplit(timestamp', body', h.timestamp, body);
    }
  }

  // --- building a verifier ---------------------------------------------------

  /**
   * How many bytes a white space character of Unicode takes in UTF-8, if one starts the text;
   * 0 if none does.
   */
  function SpaceAt(s: Bytes): (n: nat)
    ensures n <= |s|
  {
    if |s| >= 1 && (s[0] == 0x20 || 0x09 <= s[0] <= 0x0D) then 1
    else if |s| >= 2 && s[0] == 0xC2 && (s[1] == 0x85 || s[1] == 0xA0) then 2
    else if |s| >= 3 && s[0] == 0xE1 && s[1] == 0x9A && s[2] == 0x80 then 3
    else if |s| >= 3 && s[0] == 0xE2 && s[1] == 0x80 && (0x80 <= s[2] <= 0x8A || s[2] in {0xA8, 0xA9, 0xAF}) then 3
    else if |s| >= 3 && s[0] == 0xE2 && s[1] == 0x81 && s[2] == 0x9F then 3
    else if |s| >= 3 && s[0] == 0xE3 && s[1] == 0x80 && s[2] == 0x80 then 3
    else 0
  }

  /** The characters that are white space, by their numbers. */
  predicate IsWhite(c: nat) {
    || 0x09 <= c <= 0x0D || c == 0x20 || c == 0x85 || c == 0xA0 || c == 0x1680
    || 0x2000 <= c <= 0x200A || c == 0x2028 || c == 0x2029 || c == 0x202F || c == 0x205F || c == 0x3000
  }

  /** UTF-8 (section 3 of RFC 3629), up to three bytes. */
  function Utf8(c: nat): Bytes
    requires c < 0x1_0000
  {
    if c < 0x80 then [c]
    else if c < 0x800 then [0xC0 + c / 64, 0x80 + c % 64]
    else [0xE0 + c / 4096, 0x80 + c / 64 % 64, 0x80 + c % 64]
  }

  predicate StartsWhite(s: Bytes, c: nat) {
    c < 0x1_0000 && IsWhite(c) && Utf8(c) <= s
  }

  /** Where a text starts with one of these characters, that one is cut. */
  lemma WhiteIsCut(s: Bytes, c: nat)
    requires StartsWhite(s, c)
    ensures SpaceAt(s) == |Utf8(c)|
  {
    if c < 0x80 {
      assert s[0] == c;
    } else if c < 0x800 {
      assert s[0] == Utf8(c)[0] && s[1] == Utf8(c)[1];
    } else {
      assert s[0] == Utf8(c)[0] && s[1] == Utf8(c)[1] && s[2] == Utf8(c)[2];
    }
  }

  /** And nothing else is. */
  lemma CutIsWhite(s: Bytes) returns (c: nat)
    requires SpaceAt(s) > 0
    ensures StartsWhite(s, c) && SpaceAt(s) == |Utf8(c)|
  {
    var first: int := s[0];
    if SpaceAt(s) == 1 {
      c := first;
    } else if SpaceAt(s) == 2 {
      var second: int := s[1];
      c := (first - 0xC0) * 64 + (second - 0x80);
    } else {
      var second: int, third: int := s[1], s[2];
      c := if first == 0xE1 then 0x1680
           else if first == 0xE3 then 0x3000
           else if second == 0x81 then 0x205F
           else 0x2000 + (third - 0x80);
    }
  }

  /** Nothing but white space: trimming leaves nothing. */
  predicate IsBlank(s: Bytes) {
    s == [] || (SpaceAt(s) > 0 && IsBlank(s[SpaceAt(s)..]))
  }

  datatype Verifier = Verifier(secret: Bytes, tolerance: int)

  /** A secret that is not blank, and the last tolerance given, or five minutes when none was. */
  method NewVerifier(secret: Bytes, tolerances: seq<int>) returns (r: Option<Verifier>)
    ensures var tolerance := if tolerances == [] then DEFAULT_TOLERANCE else tolerances[|tolerances| - 1];
            && (r.Some? <==> !IsBlank(secret) && tolerance > 0)
            && (r.Some? ==> r.value == Verifier(secret, tolerance))
  {
    var rest := secret;
    while SpaceAt(rest) > 0
      invariant IsBlank(rest) <==> IsBlank(secret)
      decreases |rest|
    {
      rest := rest[SpaceAt(rest)..];
    }
    if |rest| == 0 {
      return None;
    }
    var v := Verifier(secret, DEFAULT_TOLERANCE);
    for i := 0 to |tolerances|
      invariant v == Verifier(secret, if i == 0 then DEFAULT_TOLERANCE else tolerances[i - 1])
    {
      v := v.(tolerance := tolerances[i]);
    }
    if v.tolerance <= 0 {
      return None;
    }
    return Some(v);
  }
}
