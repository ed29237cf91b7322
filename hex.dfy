/**
 * Lower-case hexadecimal encoding of random bytes, as the token generators of
 * controller/admincontroller.js apply it to 20 random bytes. The decoder is not
 * in the program; it is the partner that shows the encoding loses nothing, so
 * that distinct random bytes always give distinct tokens.
 */
module Hex {
  import opened Wrappers

  type byte = x: int | 0 <= x < 256

  /** Number of random bytes behind every token the program generates. */
  const TokenBytes: nat := 20

  function Digit(n: int): (c: char)
    requires 0 <= n < 16
    ensures IsDigit(c)
  {
    if n < 10 then ('0' as int + n) as char else ('a' as int + n - 10) as char
  }

  predicate IsDigit(c: char) {
    '0' <= c <= '9' || 'a' <= c <= 'f'
  }

  function DigitValue(c: char): (r: Option<int>)
    ensures r.Some? <==> IsDigit(c)
    ensures r.Some? ==> 0 <= r.value < 16 && Digit(r.value) == c
  {
    if '0' <= c <= '9' then Some(c as int - '0' as int)
    else if 'a' <= c <= 'f' then Some(c as int - 'a' as int + 10)
    else None
  }

  /** Two digits per byte, high nibble first. */
  function Encode(bytes: seq<byte>): (s: string)
    ensures |s| == 2 * |bytes|
    ensures forall i :: 0 <= i < |s| ==> IsDigit(s[i])
  {
    if bytes == [] then []
    else [Digit(bytes[0] / 16), Digit(bytes[0] % 16)] + Encode(bytes[1..])
  }

  function Decode(s: string): Option<seq<byte>>
  {
    if |s| == 0 then Some([])
    else if |s| == 1 then None
    else
      match (DigitValue(s[0]), DigitValue(s[1]), Decode(s[2..]))
      case (Some(hi), Some(lo), Some(rest)) => Some([hi * 16 + lo] + rest)
      case _ => None
  }

  lemma {:induction false} DecodeEncode(bytes: seq<byte>)
    ensures Decode(Encode(bytes)) == Some(bytes)
  {
    if bytes != [] {
      var s := Encode(bytes);
      var b := bytes[0];
      assert s[2..] == Encode(bytes[1..]);
      DecodeEncode(bytes[1..]);
      assert DigitValue(s[0]) == Some(b / 16);
      assert DigitValue(s[1]) == Some(b % 16);
      assert [b] + bytes[1..] == bytes;
    }
  }

  /** Distinct random bytes give distinct tokens. */
  lemma EncodeInjective(a: seq<byte>, b: seq<byte>)
    requires a != b
    ensures Encode(a) != Encode(b)
  {
    DecodeEncode(a);
    DecodeEncode(b);
  }

  /** The token made from 20 random bytes: 40 lower-case hex digits. */
  function Token(entropy: seq<byte>): (t: string)
    requires |entropy| == TokenBytes
    ensures |t| == 2 * TokenBytes
    ensures Decode(t) == Some(entropy)
  {
    DecodeEncode(entropy);
    Encode(entropy)
  }
}
