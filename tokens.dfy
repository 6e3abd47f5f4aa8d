/**
 * Token minting (src/utils/tokens.js): opaque hex tokens built from random
 * bytes, the six-digit password-reset code, and their expiry instants.
 * The random source and the clock are inputs.
 */
module Tokens {
  import opened Base
  import Text

  /** One value of `crypto.randomBytes`. */
  type Byte = b: int | 0 <= b < 256

  /** Bytes drawn by `generateToken()` when no length is given. */
  const DefaultTokenBytes: nat := 32
  const HourMs: Millis := 60 * 60 * 1000
  const DayMs: Millis := 24 * HourMs

  predicate IsHexChar(c: char)
  {
    '0' <= c <= '9' || 'a' <= c <= 'f'
  }

  predicate IsHex(s: string)
  {
    forall i :: 0 <= i < |s| ==> IsHexChar(s[i])
  }

  /** The lower-case hex digit of a nibble. */
  function HexDigit(d: nat): (c: char)
    requires d < 16
    ensures IsHexChar(c)
  {
    if d < 10 then ('0' as int + d) as char else ('a' as int + d - 10) as char
  }

  /** The nibble a lower-case hex digit stands for. */
  function HexValue(c: char): (d: nat)
    requires IsHexChar(c)
    ensures d < 16 && HexDigit(d) == c
  {
    if '0' <= c <= '9' then c as int - '0' as int else c as int - 'a' as int + 10
  }

  /** `buffer.toString('hex')`: two lower-case hex digits per byte, high nibble first. */
  function HexEncode(bytes: seq<Byte>): (s: string)
    ensures |s| == 2 * |bytes|
    ensures IsHex(s)
  {
    if bytes == [] then []
    else [HexDigit(bytes[0] / 16), HexDigit(bytes[0] % 16)] + HexEncode(bytes[1..])
  }

  /** The inverse of `HexEncode`: reads pairs of hex digits back into bytes. */
  function HexDecode(s: string): (bytes: seq<Byte>)
    requires |s| % 2 == 0 && IsHex(s)
    ensures |bytes| == |s| / 2
  {
    if s == [] then []
    else [HexValue(s[0]) * 16 + HexValue(s[1])] + HexDecode(s[2..])
  }

  /** Decoding an encoding gives back the bytes. */
  lemma {:induction false} HexRoundTrip(bytes: seq<Byte>)
    ensures HexDecode(HexEncode(bytes)) == bytes
  {
    if bytes != [] {
      var s := HexEncode(bytes);
      HexRoundTrip(bytes[1..]);
      assert s[2..] == HexEncode(bytes[1..]);
      assert HexValue(s[0]) == bytes[0] / 16;
      assert HexValue(s[1]) == bytes[0] % 16;
    }
  }

  /** Distinct byte strings never share a token. */
  lemma HexEncodeInjective(a: seq<Byte>, b: seq<Byte>)
    requires HexEncode(a) == HexEncode(b)
    ensures a == b
  {
    HexRoundTrip(a);
    HexRoundTrip(b);
  }

  /** `generateToken(length)`, given the `length` bytes the random source produced. */
  function GenerateToken(length: nat, random: seq<Byte>): (token: string)
    requires |random| == length
    ensures |token| == 2 * length && IsHex(token)
    ensures HexDecode(token) == random
  {
    HexRoundTrip(random);
    HexEncode(random)
  }

  /** A token together with the instant it stops being accepted. */
  datatype Grant = Grant(token: string, expires: Millis)

  /** `generateVerificationToken()`: a default-length token valid for 24 hours. */
  function GenerateVerificationToken(random: seq<Byte>, now: Millis): (g: Grant)
    requires |random| == DefaultTokenBytes
    ensures |g.token| == 64 && IsHex(g.token) && HexDecode(g.token) == random
    ensures g.expires == now + 86_400_000
  {
    Grant(GenerateToken(DefaultTokenBytes, random), now + DayMs)
  }

  /**
   * The integer `Math.floor(100000 + Math.random() * 900000)`, where `draw`
   * is `Math.floor(Math.random() * 900000)`.
   */
  function ResetCode(draw: nat): (code: nat)
    requires draw < 900_000
    ensures 100_000 <= code <= 999_999
  {
    100_000 + draw
  }

  /** `generateResetToken()`: the reset code in decimal, valid for one hour. */
  function GenerateResetToken(draw: nat, now: Millis): (g: Grant)
    requires draw < 900_000
    ensures |g.token| == 6 && Text.IsDigits(g.token) && g.token[0] != '0'
    ensures Text.DigitsValue(g.token) == 100_000 + draw
    ensures g.expires == now + 3_600_000
  {
    var code := ResetCode(draw);
    Text.DecimalLength(code, 5);
    Text.DecimalRoundTrip(code);
    Grant(Text.Decimal(code), now + HourMs)
  }
}
