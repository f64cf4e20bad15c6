/** encoding/hex: lower-case encoding of bytes and the decoding that accepts either case. */
module Hex {
  import opened Wrappers

  type byte = b: int | 0 <= b < 256

  predicate IsLowerHexDigit(c: char) {
    '0' <= c <= '9' || 'a' <= c <= 'f'
  }

  predicate AllLowerHex(s: string) {
    forall i | 0 <= i < |s| :: IsLowerHexDigit(s[i])
  }

  /** The value of one hex digit, upper or lower case. */
  function HexValue(c: char): (r: Option<nat>)
    ensures r.Some? ==> r.value < 16
    ensures IsLowerHexDigit(c) ==> r.Some?
  {
    if '0' <= c <= '9' then Some(c as int - '0' as int)
    else if 'a' <= c <= 'f' then Some(c as int - 'a' as int + 10)
    else if 'A' <= c <= 'F' then Some(c as int - 'A' as int + 10)
    else None
  }

  /** The lower-case digit for a nibble; reading it back gives the nibble. */
  function HexDigit(n: nat): (c: char)
    requires n < 16
    ensures IsLowerHexDigit(c) && HexValue(c) == Some(n)
  {
    if n < 10 then ('0' as int + n) as char else ('a' as int + n - 10) as char
  }

  lemma DigitOfValue(c: char)
    requires IsLowerHexDigit(c)
    ensures HexDigit(HexValue(c).value) == c
  {
  }

  /** hex.EncodeToString: two lower-case digits per byte, high nibble first. */
  function Encode(bytes: seq<byte>): (s: string)
    ensures |s| == 2 * |bytes|
    ensures AllLowerHex(s)
  {
    if bytes == [] then []
    else [HexDigit(bytes[0] / 16), HexDigit(bytes[0] % 16)] + Encode(bytes[1..])
  }

  /** hex.DecodeString: pairs of digits of either case; a lone digit or a non-digit is an error. */
  function Decode(s: string): (r: Option<seq<byte>>)
    ensures r.Some? ==> 2 * |r.value| == |s|
  {
    if s == [] then Some([])
    else if |s| == 1 then None
    else
      match (HexValue(s[0]), HexValue(s[1]), Decode(s[2..]))
      case (Some(hi), Some(lo), Some(rest)) => Some([hi * 16 + lo] + rest)
      case _ => None
  }

  lemma {:induction false} EncodeAppend(a: seq<byte>, b: seq<byte>)
    ensures Encode(a + b) == Encode(a) + Encode(b)
  {
    if a != [] {
      assert (a + b)[1..] == a[1..] + b;
      EncodeAppend(a[1..], b);
    } else {
      assert a + b == b;
    }
  }

  /** Decoding an encoding gives the bytes back. */
  lemma {:induction false} DecodeEncode(bytes: seq<byte>)
    ensures Decode(Encode(bytes)) == Some(bytes)
  {
    if bytes != [] {
      var s := Encode(bytes);
      assert s[2..] == Encode(bytes[1..]);
      DecodeEncode(bytes[1..]);
      assert bytes == [bytes[0]] + bytes[1..];
    }
  }

  lemma AllLowerHexTail(s: string)
    requires AllLowerHex(s) && |s| >= 2
    ensures AllLowerHex(s[2..])
  {
    forall i | 0 <= i < |s[2..]| ensures IsLowerHexDigit(s[2..][i]) {
      assert s[2..][i] == s[i + 2];
    }
  }

  /** Every lower-case hex text of even length decodes, to bytes whose encoding is that text. */
  lemma {:induction false} EncodeDecode(s: string)
    requires AllLowerHex(s) && |s| % 2 == 0
    ensures Decode(s).Some?
    ensures Encode(Decode(s).value) == s
  {
    if s != [] {
      AllLowerHexTail(s);
      EncodeDecode(s[2..]);
      var rest := Decode(s[2..]).value;
      var hi, lo := HexValue(s[0]).value, HexValue(s[1]).value;
      var b: byte := hi * 16 + lo;
      assert Decode(s) == Some([b] + rest);
      assert ([b] + rest)[1..] == rest;
      assert b / 16 == hi && b % 16 == lo;
      DigitOfValue(s[0]);
      DigitOfValue(s[1]);
      assert Encode([b] + rest) == [s[0], s[1]] + s[2..];
      assert s == [s[0], s[1]] + s[2..];
    }
  }
}
