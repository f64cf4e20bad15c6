/**
 * The pieces of Go's standard library the handlers lean on, stated over
 * `string` (a sequence of Unicode scalar values): unicode.IsSpace,
 * strings.TrimSpace / HasPrefix / TrimPrefix / ToLower / Split / Join,
 * the byte length `len` of a UTF-8 string, and fmt's `%d`.
 */
module Strings {
  import opened Wrappers

  // ---------------------------------------------------------------------
  // Whitespace and trimming
  // ---------------------------------------------------------------------

  /** unicode.IsSpace: the Latin-1 spaces and the White_Space runes above U+00FF. */
  predicate IsSpace(c: char) {
    || c == ' ' || c == '\t' || c == '\n' || c == '\U{B}' || c == '\U{C}' || c == '\r'
    || c == '\U{85}' || c == '\U{A0}' || c == '\U{1680}'
    || ('\U{2000}' <= c <= '\U{200A}')
    || c == '\U{2028}' || c == '\U{2029}' || c == '\U{202F}' || c == '\U{205F}' || c == '\U{3000}'
  }

  /** In the ASCII range, exactly space, tab, newline, vertical tab, form feed and carriage return. */
  lemma AsciiSpaces(c: char)
    requires c as int < 0x80
    ensures IsSpace(c) <==> c == ' ' || '\t' <= c <= '\r'
  {
  }

  predicate AllSpace(s: string) {
    forall i | 0 <= i < |s| :: IsSpace(s[i])
  }

  /** No whitespace at either end. */
  predicate IsTrimmed(s: string) {
    s == [] || (!IsSpace(s[0]) && !IsSpace(s[|s| - 1]))
  }

  /** How many runes of whitespace `s` starts with. */
  function LeadingSpaces(s: string): (n: nat)
    ensures n <= |s| && AllSpace(s[..n])
    ensures n < |s| ==> !IsSpace(s[n])
  {
    if s != [] && IsSpace(s[0]) then
      var m := LeadingSpaces(s[1..]);
      assert s[..m + 1] == [s[0]] + s[1..][..m];
      AllSpaceCons(s[0], s[1..][..m]);
      m + 1
    else
      0
  }

  lemma AllSpaceCons(c: char, a: string)
    requires IsSpace(c) && AllSpace(a)
    ensures AllSpace([c] + a)
  {
  }

  /** How many runes of whitespace `s` ends with. */
  function TrailingSpaces(s: string): (n: nat)
    ensures n <= |s| && AllSpace(s[|s| - n..])
    ensures n < |s| ==> !IsSpace(s[|s| - n - 1])
  {
    if s != [] && IsSpace(s[|s| - 1]) then
      var init := s[..|s| - 1];
      var m := TrailingSpaces(init);
      assert s[|s| - (m + 1)..] == init[|init| - m..] + [s[|s| - 1]];
      AllSpaceSnoc(init[|init| - m..], s[|s| - 1]);
      m + 1
    else
      0
  }

  lemma AllSpaceSnoc(a: string, c: char)
    requires AllSpace(a) && IsSpace(c)
    ensures AllSpace(a + [c])
  {
  }

  /**
   * strings.TrimSpace: the leading whitespace is skipped, then the trailing
   * whitespace of what is left; no whitespace is left at either end.
   */
  function TrimSpace(s: string): (r: string)
    ensures IsTrimmed(r)
    ensures |r| <= |s|
  {
    var i := LeadingSpaces(s);
    var rest := s[i..];
    rest[..|rest| - TrailingSpaces(rest)]
  }

  /** `t` stands in `s` at index `i`, with only whitespace before and after it. */
  predicate PaddedAt(s: string, t: string, i: int) {
    0 <= i && i + |t| <= |s| && s[i..i + |t|] == t && AllSpace(s[..i]) && AllSpace(s[i + |t|..])
  }

  /**
   * What TrimSpace keeps is one slice of its input, starting where the
   * leading whitespace ends, and everything cut off around it is whitespace.
   */
  lemma TrimSpaceIsSlice(s: string)
    ensures PaddedAt(s, TrimSpace(s), LeadingSpaces(s))
  {
    var i := LeadingSpaces(s);
    var rest := s[i..];
    var k := |rest| - TrailingSpaces(rest);
    assert TrimSpace(s) == s[i..][..k];
    SliceOfSuffix(s, i, k);
  }

  lemma SliceOfSuffix(s: string, i: nat, k: nat)
    requires i + k <= |s| && AllSpace(s[..i]) && AllSpace(s[i..][k..])
    ensures PaddedAt(s, s[i..][..k], i)
  {
    assert s[i..][k..] == s[i + k..];
    assert s[i..][..k] == s[i..i + k];
  }

  lemma {:induction false} LeadingPadded(p: string, u: string)
    requires AllSpace(p)
    requires u == [] || !IsSpace(u[0])
    ensures LeadingSpaces(p + u) == |p|
  {
    if p == [] {
      assert p + u == u;
    } else {
      assert (p + u)[1..] == p[1..] + u;
      LeadingPadded(p[1..], u);
    }
  }

  lemma {:induction false} TrailingPadded(u: string, q: string)
    requires AllSpace(q)
    requires u == [] || !IsSpace(u[|u| - 1])
    ensures TrailingSpaces(u + q) == |q|
  {
    if q == [] {
      assert u + q == u;
    } else {
      assert (u + q)[..|u + q| - 1] == u + q[..|q| - 1];
      TrailingPadded(u, q[..|q| - 1]);
    }
  }

  lemma AllSpaceAppend(a: string, b: string)
    requires AllSpace(a) && AllSpace(b)
    ensures AllSpace(a + b)
  {
    forall i | 0 <= i < |a + b| ensures IsSpace((a + b)[i]) {
      if i < |a| { assert (a + b)[i] == a[i]; } else { assert (a + b)[i] == b[i - |a|]; }
    }
  }

  /** Nothing is left of a text that is all whitespace. */
  lemma TrimSpaceAllSpace(s: string)
    requires AllSpace(s)
    ensures TrimSpace(s) == []
  {
    LeadingPadded(s, []);
    assert s + [] == s;
    assert s[|s|..] == [];
  }

  /** TrimSpace recovers a trimmed text from any whitespace padding around it. */
  lemma TrimSpacePadded(p: string, t: string, q: string)
    requires AllSpace(p) && IsTrimmed(t) && AllSpace(q)
    ensures TrimSpace(p + t + q) == t
  {
    var s := p + t + q;
    if t == [] {
      assert s == p + q;
      AllSpaceAppend(p, q);
      TrimSpaceAllSpace(p + q);
    } else {
      assert s == p + (t + q);
      LeadingPadded(p, t + q);
      assert s[|p|..] == t + q;
      TrailingPadded(t, q);
      assert (t + q)[..|t|] == t;
    }
  }

  // ---------------------------------------------------------------------
  // Prefixes
  // ---------------------------------------------------------------------

  /** strings.HasPrefix (case-sensitive). */
  predicate HasPrefix(s: string, prefix: string) {
    |prefix| <= |s| && s[..|prefix|] == prefix
  }

  /** strings.TrimPrefix: removes one occurrence of `prefix` at the front, if there is one. */
  function TrimPrefix(s: string, prefix: string): (r: string)
    ensures HasPrefix(s, prefix) ==> prefix + r == s
    ensures !HasPrefix(s, prefix) ==> r == s
  {
    if HasPrefix(s, prefix) then s[|prefix|..] else s
  }

  /** Prepending a prefix and trimming it off again gives the text back. */
  lemma HasPrefixAppend(prefix: string, t: string)
    ensures HasPrefix(prefix + t, prefix)
    ensures TrimPrefix(prefix + t, prefix) == t
  {
    assert (prefix + t)[..|prefix|] == prefix;
    assert (prefix + t)[|prefix|..] == t;
  }

  // ---------------------------------------------------------------------
  // Lower-casing
  // ---------------------------------------------------------------------

  /**
   * unicode.ToLower for every rune whose lower case is ASCII: 'A'..'Z',
   * U+0130 (capital I with dot, lower case 'i') and U+212A (Kelvin sign,
   * lower case 'k'). Every other rune is returned unchanged; its real lower
   * case is not ASCII either, so comparisons against ASCII words come out
   * the same as in Go.
   */
  function LowerRune(c: char): char {
    if 'A' <= c <= 'Z' then (c as int + 32) as char
    else if c == '\U{130}' then 'i'
    else if c == '\U{212A}' then 'k'
    else c
  }

  /** strings.ToLower, rune by rune (see LowerRune). */
  function ToLower(s: string): (r: string)
    ensures |r| == |s|
    ensures forall i | 0 <= i < |r| :: !('A' <= r[i] <= 'Z')
    ensures forall i | 0 <= i < |s| :: 'A' <= s[i] <= 'Z' ==> r[i] == (s[i] as int + 32) as char
    ensures forall i | 0 <= i < |s| :: s[i] == '\U{130}' ==> r[i] == 'i'
    ensures forall i | 0 <= i < |s| :: s[i] == '\U{212A}' ==> r[i] == 'k'
    ensures forall i | 0 <= i < |s| :: !('A' <= s[i] <= 'Z') && s[i] != '\U{130}' && s[i] != '\U{212A}' ==> r[i] == s[i]
  {
    seq(|s|, i requires 0 <= i < |s| => LowerRune(s[i]))
  }

  // ---------------------------------------------------------------------
  // Splitting on and joining with a single space
  // ---------------------------------------------------------------------

  /** The number of single spaces in `s`. */
  function SpaceCount(s: string): nat {
    if s == [] then 0 else (if s[0] == ' ' then 1 else 0) + SpaceCount(s[1..])
  }

  /** strings.Split(s, " "): the pieces between single spaces, one more than there are spaces. */
  function Split(s: string): (r: seq<string>)
    ensures |r| == SpaceCount(s) + 1
  {
    if s == [] then [[]]
    else
      var rest := Split(s[1..]);
      if s[0] == ' ' then [[]] + rest else [[s[0]] + rest[0]] + rest[1..]
  }

  /** The runes of all pieces together. */
  function TotalLength(ws: seq<string>): nat {
    if ws == [] then 0 else |ws[0]| + TotalLength(ws[1..])
  }

  /** strings.Join(ws, " "): the pieces with one space between neighbours. */
  function Join(ws: seq<string>): (r: string)
    ensures |ws| == 0 ==> r == []
    ensures |ws| >= 1 ==> |r| == TotalLength(ws) + |ws| - 1
  {
    if |ws| == 0 then []
    else if |ws| == 1 then ws[0]
    else ws[0] + " " + Join(ws[1..])
  }

  lemma JoinCons(w: string, ws: seq<string>)
    requires |ws| >= 1
    ensures Join([w] + ws) == w + " " + Join(ws)
  {
    assert ([w] + ws)[1..] == ws;
  }

  predicate NoSpace(w: string) {
    ' ' !in w
  }

  predicate AllNoSpace(ws: seq<string>) {
    forall i | 0 <= i < |ws| :: NoSpace(ws[i])
  }

  /** Joining the pieces back with single spaces gives the input: every space is kept in place. */
  lemma {:induction false} JoinSplit(s: string)
    ensures Join(Split(s)) == s
  {
    if s != [] {
      var rest := Split(s[1..]);
      JoinSplit(s[1..]);
      if s[0] == ' ' {
        assert Split(s) == [[]] + rest;
        assert Join(Split(s)) == [] + " " + Join(rest);
      } else {
        var r := Split(s);
        assert r == [[s[0]] + rest[0]] + rest[1..];
        if |rest| == 1 {
          assert Join(r) == [s[0]] + rest[0];
        } else {
          assert Join(rest) == rest[0] + " " + Join(rest[1..]);
          assert r[1..] == rest[1..];
          assert Join(r) == ([s[0]] + rest[0]) + " " + Join(rest[1..]);
        }
        assert s == [s[0]] + s[1..];
      }
    }
  }

  /** No piece contains the separator. */
  lemma {:induction false} SplitPiecesHaveNoSpace(s: string)
    ensures AllNoSpace(Split(s))
  {
    if s != [] {
      SplitPiecesHaveNoSpace(s[1..]);
      var rest := Split(s[1..]);
      if s[0] != ' ' {
        var r := Split(s);
        forall i | 0 <= i < |r| ensures NoSpace(r[i]) {
          if i == 0 {
            assert r[0] == [s[0]] + rest[0];
            assert NoSpace(rest[0]);
          } else {
            assert r[i] == rest[i];
          }
        }
      } else {
        var r := Split(s);
        forall i | 0 <= i < |r| ensures NoSpace(r[i]) {
          if i > 0 { assert r[i] == rest[i - 1]; }
        }
      }
    }
  }

  lemma {:induction false} SplitWord(w: string)
    requires NoSpace(w)
    ensures Split(w) == [w]
  {
    if w != [] {
      assert NoSpace(w[1..]) by { assert forall c | c in w[1..] :: c in w; }
      SplitWord(w[1..]);
      assert w == [w[0]] + w[1..];
    }
  }

  lemma {:induction false} SplitAfterWord(a: string, b: string)
    requires NoSpace(a)
    ensures Split(a + " " + b) == [a] + Split(b)
  {
    if a == [] {
      assert a + " " + b == " " + b;
      assert (" " + b)[1..] == b;
    } else {
      assert NoSpace(a[1..]) by { assert forall c | c in a[1..] :: c in a; }
      SplitAfterWord(a[1..], b);
      assert (a + " " + b)[1..] == a[1..] + " " + b;
      assert a == [a[0]] + a[1..];
    }
  }

  /** Splitting a join of space-free pieces gives the pieces back. */
  lemma {:induction false} SplitJoin(ws: seq<string>)
    requires |ws| >= 1 && AllNoSpace(ws)
    ensures Split(Join(ws)) == ws
  {
    if |ws| == 1 {
      SplitWord(ws[0]);
    } else {
      SplitJoin(ws[1..]);
      SplitAfterWord(ws[0], Join(ws[1..]));
      assert ws == [ws[0]] + ws[1..];
    }
  }

  // ---------------------------------------------------------------------
  // UTF-8 byte length (Go's `len` on a string)
  // ---------------------------------------------------------------------

  function Utf8Width(c: char): nat {
    if c as int < 0x80 then 1
    else if c as int < 0x800 then 2
    else if c as int < 0x10000 then 3
    else 4
  }

  /**
   * The number of bytes in the UTF-8 encoding of `s`: one to four per rune,
   * exactly one per rune for ASCII text.
   */
  function Utf8Len(s: string): (n: nat)
    ensures |s| <= n <= 4 * |s|
    ensures (forall i | 0 <= i < |s| :: s[i] as int < 0x80) ==> n == |s|
  {
    if s == [] then 0 else Utf8Width(s[0]) + Utf8Len(s[1..])
  }

  lemma {:induction false} Utf8LenAppend(a: string, b: string)
    ensures Utf8Len(a + b) == Utf8Len(a) + Utf8Len(b)
  {
    if a != [] {
      assert (a + b)[1..] == a[1..] + b;
      Utf8LenAppend(a[1..], b);
    } else {
      assert a + b == b;
    }
  }

  /**
   * Joining pieces that are each no longer than their counterparts gives a
   * string no longer than the other join, in runes and in bytes.
   */
  lemma {:induction false} JoinNoLonger(vs: seq<string>, ws: seq<string>)
    requires |vs| == |ws|
    requires forall i | 0 <= i < |ws| :: |vs[i]| <= |ws[i]| && Utf8Len(vs[i]) <= Utf8Len(ws[i])
    ensures |Join(vs)| <= |Join(ws)|
    ensures Utf8Len(Join(vs)) <= Utf8Len(Join(ws))
  {
    if |ws| >= 2 {
      JoinNoLonger(vs[1..], ws[1..]);
      Utf8LenAppend(vs[0] + " ", Join(vs[1..]));
      Utf8LenAppend(vs[0], " ");
      Utf8LenAppend(ws[0] + " ", Join(ws[1..]));
      Utf8LenAppend(ws[0], " ");
    }
  }

  // ---------------------------------------------------------------------
  // Decimal rendering (fmt's %d) and its inverse
  // ---------------------------------------------------------------------

  predicate IsDigit(c: char) {
    '0' <= c <= '9'
  }

  predicate AllDigits(s: string) {
    forall i | 0 <= i < |s| :: IsDigit(s[i])
  }

  function DigitChar(d: nat): char
    requires d < 10
  {
    ('0' as int + d) as char
  }

  /** The shortest decimal numeral of `n`. */
  function NatToDecimal(n: nat): (r: string)
    ensures r != [] && AllDigits(r)
  {
    if n < 10 then [DigitChar(n)] else NatToDecimal(n / 10) + [DigitChar(n % 10)]
  }

  /** fmt.Sprintf("%d", n): a minus sign for negative numbers, then the digits of |n|. */
  function IntToDecimal(n: int): (r: string)
    ensures n >= 0 ==> r != [] && AllDigits(r)
    ensures n < 0 ==> |r| >= 2 && r[0] == '-' && AllDigits(r[1..])
  {
    if n < 0 then
      var digits := NatToDecimal(-n);
      assert ("-" + digits)[1..] == digits;
      "-" + digits
    else
      NatToDecimal(n)
  }

  /** The value of a numeral, most significant digit first. */
  function DigitsValue(s: string): nat
    requires AllDigits(s)
  {
    if s == [] then 0 else DigitsValue(s[..|s| - 1]) * 10 + (s[|s| - 1] as int - '0' as int)
  }

  /** Reads an optionally negative decimal numeral. */
  function ParseDecimal(s: string): Option<int> {
    if |s| > 1 && s[0] == '-' && AllDigits(s[1..]) then Some(0 - DigitsValue(s[1..]) as int)
    else if s != [] && AllDigits(s) then Some(DigitsValue(s))
    else None
  }

  lemma {:induction false} NatDecimalRoundTrip(n: nat)
    ensures DigitsValue(NatToDecimal(n)) == n
  {
    if n >= 10 {
      var s := NatToDecimal(n);
      assert s[..|s| - 1] == NatToDecimal(n / 10);
      NatDecimalRoundTrip(n / 10);
    }
  }

  /** Reading back the rendered numeral gives the number. */
  lemma DecimalRoundTrip(n: int)
    ensures ParseDecimal(IntToDecimal(n)) == Some(n)
  {
    var s := IntToDecimal(n);
    if n < 0 {
      var digits := NatToDecimal(-n);
      assert s == "-" + digits;
      assert s[1..] == digits;
      NatDecimalRoundTrip(-n);
    } else {
      assert s == NatToDecimal(n);
      assert IsDigit(s[0]);
      NatDecimalRoundTrip(n);
    }
  }

}
