/** github.com/google/uuid: the 16-byte identifier, its canonical text and the parser. */
module Uuids {
  import opened Wrappers
  import opened Hex
  import Strings

  type Uuid = s: seq<byte> | |s| == 16 witness seq(16, _ => 0)

  /** uuid.Nil, the all-zero identifier. */
  const Nil: Uuid := [0, 0, 0, 0, 0, 0, 0, 0, 0, 0, 0, 0, 0, 0, 0, 0]

  /** uuid.UUID.String: 8-4-4-4-12 lower-case hex digits. */
  function UuidString(u: Uuid): (r: string)
    ensures |r| == 36
  {
    Encode(u[..4]) + "-" + Encode(u[4..6]) + "-" + Encode(u[6..8]) + "-" + Encode(u[8..10]) + "-" + Encode(u[10..])
  }

  predicate IsAscii(s: string) {
    forall i | 0 <= i < |s| :: s[i] as int < 128
  }

  /** The dashed form xxxxxxxx-xxxx-xxxx-xxxx-xxxxxxxxxxxx, digits of either case. */
  function ParseDashed(s: string): Option<Uuid>
    requires |s| == 36
  {
    if s[8] == '-' && s[13] == '-' && s[18] == '-' && s[23] == '-' then
      match Decode(s[..8] + s[9..13] + s[14..18] + s[19..23] + s[24..])
      case Some(b) => Some(b)
      case None => None
    else
      None
  }

  /**
   * uuid.Parse: the dashed form, the dashed form after one leading character
   * (the brace form; neither brace is checked), the dashed form after a
   * case-insensitive "urn:uuid:", or 32 bare hex digits. Go dispatches on
   * the length in bytes and checks every byte outside the brace positions, so
   * a string holding any non-ASCII rune never parses.
   */
  function ParseUuid(s: string): (r: Option<Uuid>)
    ensures r.Some? ==> IsAscii(s) && (|s| == 32 || |s| == 36 || |s| == 38 || |s| == 45)
  {
    if !IsAscii(s) then None
    else if |s| == 36 then ParseDashed(s)
    else if |s| == 45 then
      if Strings.ToLower(s[..9]) == "urn:uuid:" then ParseDashed(s[9..]) else None
    else if |s| == 38 then ParseDashed(s[1..37])
    else if |s| == 32 then
      match Decode(s)
      case Some(b) => Some(b)
      case None => None
    else None
  }

  /** The canonical text of an identifier parses back to it. */
  lemma UuidStringParses(u: Uuid)
    ensures |UuidString(u)| == 36
    ensures ParseUuid(UuidString(u)) == Some(u)
  {
    var s := UuidString(u);
    UuidStringShape(u);
    UuidStringIsAscii(u);
    EncodeGroups(u);
    assert s[..8] + s[9..13] + s[14..18] + s[19..23] + s[24..] == Encode(u);
    DecodeEncode(u);
  }

  /** The 32-digit form without dashes parses back to the identifier too. */
  lemma ParseUuidBare(u: Uuid)
    ensures ParseUuid(Encode(u)) == Some(u)
  {
    var s := Encode(u);
    assert IsAscii(s) by {
      forall i | 0 <= i < |s| ensures s[i] as int < 128 {
        assert IsLowerHexDigit(s[i]);
      }
    }
    DecodeEncode(u);
  }

  /** Encoding the five groups one after the other encodes the whole identifier. */
  lemma EncodeGroups(u: Uuid)
    ensures Encode(u[..4]) + Encode(u[4..6]) + Encode(u[6..8]) + Encode(u[8..10]) + Encode(u[10..]) == Encode(u)
  {
    EncodeAppend(u[..4], u[4..6]);
    EncodeAppend(u[..4] + u[4..6], u[6..8]);
    EncodeAppend(u[..4] + u[4..6] + u[6..8], u[8..10]);
    EncodeAppend(u[..4] + u[4..6] + u[6..8] + u[8..10], u[10..]);
    assert u[..4] + u[4..6] + u[6..8] + u[8..10] + u[10..] == u;
  }

  /** Where the dashes and the digit groups of the canonical text lie. */
  lemma UuidStringShape(u: Uuid)
    ensures var s := UuidString(u);
      && |s| == 36
      && s[8] == '-' && s[13] == '-' && s[18] == '-' && s[23] == '-'
      && s[..8] == Encode(u[..4]) && s[9..13] == Encode(u[4..6]) && s[14..18] == Encode(u[6..8])
      && s[19..23] == Encode(u[8..10]) && s[24..] == Encode(u[10..])
  {
    DashedShape(Encode(u[..4]), Encode(u[4..6]), Encode(u[6..8]), Encode(u[8..10]), Encode(u[10..]));
  }

  /** Five groups of 8, 4, 4, 4 and 12 runes joined by dashes, and where each lies. */
  lemma DashedShape(a: string, b: string, c: string, d: string, e: string)
    requires |a| == 8 && |b| == 4 && |c| == 4 && |d| == 4 && |e| == 12
    ensures var s := a + "-" + b + "-" + c + "-" + d + "-" + e;
      && |s| == 36
      && s[8] == '-' && s[13] == '-' && s[18] == '-' && s[23] == '-'
      && s[..8] == a && s[9..13] == b && s[14..18] == c && s[19..23] == d && s[24..] == e
  {
    var s := a + "-" + b + "-" + c + "-" + d + "-" + e;
    var p := a + "-" + b + "-" + c + "-" + d + "-";
    assert s == p + e;
    assert s[24..] == e;
    var q := a + "-" + b + "-" + c + "-";
    assert p == q + d + "-";
    assert s[19..23] == d;
    var r := a + "-" + b + "-";
    assert q == r + c + "-";
    assert s[14..18] == c;
    assert r == a + "-" + b + "-";
    assert s[9..13] == b;
    assert s[..8] == a;
  }

  lemma UuidStringIsAscii(u: Uuid)
    ensures IsAscii(UuidString(u))
  {
    var s := UuidString(u);
    UuidStringShape(u);
    forall i | 0 <= i < 36 ensures s[i] as int < 128 {
      if i < 8 { assert s[i] == s[..8][i]; }
      else if 8 < i < 13 { assert s[i] == s[9..13][i - 9]; }
      else if 13 < i < 18 { assert s[i] == s[14..18][i - 14]; }
      else if 18 < i < 23 { assert s[i] == s[19..23][i - 19]; }
      else if 23 < i { assert s[i] == s[24..][i - 24]; }
    }
  }
}
