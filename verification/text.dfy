/** String operations the pages rely on, as ECMAScript defines them for the
    inputs they see: ASCII `toLowerCase`, `includes`, `trim`, the decimal
    rendering of integers in template literals, and `parseInt` without a
    radix. */
module Text {
  import opened Common

  // ---------------------------------------------------------------------
  // Lower-casing and substring search
  // ---------------------------------------------------------------------

  predicate IsUpper(c: char)
  {
    'A' <= c <= 'Z'
  }

  /** Lower-cases one ASCII letter; every other character is left alone. */
  function LowerChar(c: char): (r: char)
    ensures !IsUpper(r)
    ensures !IsUpper(c) ==> r == c
  {
    if IsUpper(c) then (c as int + 32) as char else c
  }

  /** `String.prototype.toLowerCase`, restricted to ASCII letters. */
  function ToLower(s: string): (r: string)
    ensures |r| == |s|
    ensures forall i :: 0 <= i < |s| ==> r[i] == LowerChar(s[i])
  {
    if |s| == 0 then "" else [LowerChar(s[0])] + ToLower(s[1..])
  }

  /** Lower-casing twice is lower-casing once. */
  lemma ToLowerIdempotent(s: string)
    ensures ToLower(ToLower(s)) == ToLower(s)
  {
  }

  /** `hay.includes(needle)`: the needle is tried at each position in turn. */
  predicate Includes(hay: string, needle: string)
    decreases |hay|
  {
    needle <= hay || (|hay| > 0 && Includes(hay[1..], needle))
  }

  /** The needle occurs in the haystack starting at offset `i`. */
  ghost predicate OccursAt(hay: string, needle: string, i: int)
  {
    0 <= i && i + |needle| <= |hay| && hay[i..i + |needle|] == needle
  }

  /** `Includes` holds exactly when the needle occurs at some offset. */
  lemma {:induction false} IncludesIff(hay: string, needle: string)
    ensures Includes(hay, needle) <==> exists i :: OccursAt(hay, needle, i)
    decreases |hay|
  {
    if needle <= hay {
      assert OccursAt(hay, needle, 0);
    } else if |hay| > 0 {
      IncludesIff(hay[1..], needle);
      OccursInTail(hay, needle);
    }
  }

  /** Past the first position, the needle occurs in `hay` exactly where it
      occurs in `hay[1..]`, one further on. */
  lemma OccursInTail(hay: string, needle: string)
    requires |hay| > 0 && !(needle <= hay)
    ensures (exists i :: OccursAt(hay, needle, i)) <==> (exists i :: OccursAt(hay[1..], needle, i))
  {
    if exists i :: OccursAt(hay[1..], needle, i) {
      var i :| OccursAt(hay[1..], needle, i);
      assert hay[i + 1..i + 1 + |needle|] == hay[1..][i..i + |needle|];
      assert OccursAt(hay, needle, i + 1);
    }
    if exists i :: OccursAt(hay, needle, i) {
      var i :| OccursAt(hay, needle, i);
      assert hay[..|needle|] != needle;
      assert i != 0;
      assert hay[1..][i - 1..i - 1 + |needle|] == hay[i..i + |needle|];
      assert OccursAt(hay[1..], needle, i - 1);
    }
  }

  /** Every string includes the empty string. */
  lemma IncludesEmpty(hay: string)
    ensures Includes(hay, "")
  {
  }

  /** `field.toLowerCase().includes(query.toLowerCase())`: the
      case-insensitive substring test every search box uses. */
  predicate MatchesText(field: string, query: string)
  {
    Includes(ToLower(field), ToLower(query))
  }

  /** The empty query matches every field, and a query longer than the
      field never does. */
  lemma MatchesTextBounds(field: string, query: string)
    ensures query == "" ==> MatchesText(field, query)
    ensures MatchesText(field, query) ==> |query| <= |field|
  {
    IncludesEmpty(ToLower(field));
    IncludesIff(ToLower(field), ToLower(query));
  }

  /** The search does not depend on the case of the query. */
  lemma MatchesTextCaseInsensitive(field: string, query: string)
    ensures MatchesText(field, ToLower(query)) == MatchesText(field, query)
  {
    ToLowerIdempotent(query);
  }

  // ---------------------------------------------------------------------
  // String.prototype.trim
  // ---------------------------------------------------------------------

  /** The characters ECMAScript's `trim` removes: WhiteSpace and
      LineTerminator (section 12.2 and 12.3 of ECMA-262). */
  predicate IsJsWhitespace(c: char)
  {
    c == '\t' || c == '\n' || c == '\U{000B}' || c == '\U{000C}' || c == '\r' ||
    c == ' ' || c == '\U{00A0}' || c == '\U{1680}' ||
    ('\U{2000}' <= c <= '\U{200A}') ||
    c == '\U{2028}' || c == '\U{2029}' || c == '\U{202F}' || c == '\U{205F}' ||
    c == '\U{3000}' || c == '\U{FEFF}'
  }

  /** Drops the leading whitespace. */
  function TrimStart(s: string): (r: string)
    ensures |r| <= |s| && r == s[|s| - |r|..]
    ensures |r| > 0 ==> !IsJsWhitespace(r[0])
    ensures forall i :: 0 <= i < |s| - |r| ==> IsJsWhitespace(s[i])
  {
    if |s| > 0 && IsJsWhitespace(s[0]) then TrimStart(s[1..]) else s
  }

  /** Drops the trailing whitespace. */
  function TrimEnd(s: string): (r: string)
    ensures r <= s
    ensures |r| > 0 ==> !IsJsWhitespace(r[|r| - 1])
    ensures forall i :: |r| <= i < |s| ==> IsJsWhitespace(s[i])
  {
    if |s| > 0 && IsJsWhitespace(s[|s| - 1]) then TrimEnd(s[..|s| - 1]) else s
  }

  /** `String.prototype.trim`. */
  function Trim(s: string): string
  {
    TrimEnd(TrimStart(s))
  }

  /** `s.trim() !== ""`: the field holds something besides whitespace. */
  predicate IsFilled(s: string)
  {
    Trim(s) != ""
  }

  /** Some character of `s` is not white space. */
  predicate HasVisibleChar(s: string)
  {
    exists i :: 0 <= i < |s| && !IsJsWhitespace(s[i])
  }

  /** A field is filled exactly when it has a non-whitespace character. */
  lemma IsFilledIff(s: string)
    ensures IsFilled(s) <==> HasVisibleChar(s)
  {
    var t := TrimStart(s);
    if Trim(s) == "" {
      assert |t| == 0;
    } else {
      var k := |s| - |t|;
      assert s[k] == t[0];
    }
  }

  // ---------------------------------------------------------------------
  // Decimal rendering and parsing
  // ---------------------------------------------------------------------

  predicate IsDigit(c: char)
  {
    '0' <= c <= '9'
  }

  predicate IsHexDigit(c: char)
  {
    IsDigit(c) || 'a' <= c <= 'f' || 'A' <= c <= 'F'
  }

  /** The value of a hexadecimal digit; a decimal digit has its usual value. */
  function DigitValue(c: char): (r: nat)
    requires IsHexDigit(c)
    ensures r < 16
    ensures IsDigit(c) ==> r < 10
  {
    if IsDigit(c) then c as int - '0' as int
    else if 'a' <= c <= 'f' then c as int - 'a' as int + 10
    else c as int - 'A' as int + 10
  }

  /** The decimal digit for a value below ten. */
  function DigitChar(d: nat): (c: char)
    requires d < 10
    ensures IsDigit(c) && DigitValue(c) == d
  {
    ('0' as int + d) as char
  }

  ghost predicate AllDigitsIn(s: string, base: nat)
  {
    forall i :: 0 <= i < |s| ==> IsHexDigit(s[i]) && DigitValue(s[i]) < base
  }

  /** The value of a digit string in the given base, most significant first. */
  function Positional(s: string, base: nat): (r: nat)
    requires AllDigitsIn(s, base)
  {
    if |s| == 0 then 0
    else Positional(s[..|s| - 1], base) * base + DigitValue(s[|s| - 1])
  }

  /** The decimal rendering of a natural number (template literal `${n}`). */
  function NatToString(n: nat): (r: string)
    ensures |r| > 0
    ensures forall i :: 0 <= i < |r| ==> IsDigit(r[i])
    ensures |r| > 1 ==> r[0] != '0'
    decreases n
  {
    if n < 10 then [DigitChar(n)] else NatToString(n / 10) + [DigitChar(n % 10)]
  }

  /** The decimal rendering of an integer, with a leading `-` when negative. */
  function IntToString(i: int): (r: string)
    ensures |r| > 0
    ensures i >= 0 ==> r == NatToString(i)
    ensures i < 0 ==> r[0] == '-' && r[1..] == NatToString(-i)
  {
    if i < 0 then "-" + NatToString(-i) else NatToString(i)
  }

  /** A non-empty all-digit string read as a decimal number, or `None`. */
  function ParseNat(s: string): (r: Option<nat>)
    ensures r.Some? <==> |s| > 0 && forall i :: 0 <= i < |s| ==> IsDigit(s[i])
  {
    if |s| > 0 && forall i :: 0 <= i < |s| ==> IsDigit(s[i]) then Some(Positional(s, 10)) else None
  }

  /** An optionally `-`-signed decimal number, or `None`. */
  function ParseSignedInt(s: string): Option<int>
  {
    if |s| > 0 && s[0] == '-' then
      match ParseNat(s[1..])
      case Some(n) => Some(0 - n as int)
      case None => None
    else
      match ParseNat(s)
      case Some(n) => Some(n as int)
      case None => None
  }

  /** Reading a rendered natural number gives it back. */
  lemma {:induction false} NatToStringValue(n: nat)
    ensures AllDigitsIn(NatToString(n), 10)
    ensures Positional(NatToString(n), 10) == n
    decreases n
  {
    var r := NatToString(n);
    if n >= 10 {
      NatToStringValue(n / 10);
      assert r[..|r| - 1] == NatToString(n / 10);
    }
  }

  lemma NatRoundTrip(n: nat)
    ensures ParseNat(NatToString(n)) == Some(n)
  {
    NatToStringValue(n);
  }

  /** Reading a rendered integer gives it back. */
  lemma IntRoundTrip(i: int)
    ensures ParseSignedInt(IntToString(i)) == Some(i)
  {
    if i < 0 {
      NatRoundTrip(-i);
    } else {
      NatRoundTrip(i);
    }
  }

  /** Rendering is injective on naturals. */
  lemma NatToStringInjective(m: nat, n: nat)
    requires NatToString(m) == NatToString(n)
    ensures m == n
  {
    NatRoundTrip(m);
    NatRoundTrip(n);
  }

  // ---------------------------------------------------------------------
  // parseInt(s) with no radix argument (section 19.2.5 of ECMA-262)
  // ---------------------------------------------------------------------

  /** The longest prefix of `s` made of characters satisfying `p`. */
  function LeadingWhile(s: string, p: char -> bool): (r: string)
    ensures r <= s
    ensures forall i :: 0 <= i < |r| ==> p(r[i])
    ensures |r| < |s| ==> !p(s[|r|])
  {
    if |s| > 0 && p(s[0]) then [s[0]] + LeadingWhile(s[1..], p) else ""
  }

  /** The digits `parseInt` reads once the sign is consumed: hexadecimal
      after a `0x`/`0X` prefix, decimal otherwise; `None` when there is no
      digit to read. */
  function ParseUnsignedJs(u: string): (r: Option<nat>)
    ensures r.Some? ==> |u| > 0 && IsDigit(u[0])
  {
    if |u| >= 2 && u[0] == '0' && (u[1] == 'x' || u[1] == 'X') then
      var d := LeadingWhile(u[2..], IsHexDigit);
      if |d| == 0 then None else Some(Positional(d, 16))
    else
      var d := LeadingWhile(u, IsDigit);
      assert AllDigitsIn(d, 10);
      if |d| == 0 then None else Some(Positional(d, 10))
  }

  /** `parseInt(s)`: skips leading whitespace, reads an optional sign, then
      the digits, stopping at the first character that is not a digit; `NaN`
      (here `None`) when no digit was read. */
  function ParseIntJs(s: string): (r: Option<int>)
    ensures r.Some? ==>
      |TrimStart(s)| > 0 && (TrimStart(s)[0] == '-' || TrimStart(s)[0] == '+' || IsDigit(TrimStart(s)[0]))
  {
    var t := TrimStart(s);
    if |t| > 0 && t[0] == '-' then
      match ParseUnsignedJs(t[1..])
      case Some(n) => Some(0 - n as int)
      case None => None
    else if |t| > 0 && t[0] == '+' then
      match ParseUnsignedJs(t[1..])
      case Some(n) => Some(n as int)
      case None => None
    else
      match ParseUnsignedJs(t)
      case Some(n) => Some(n as int)
      case None => None
  }

  /** The longest run of `p` characters at the front of `d + rest` is `d`
      when every character of `d` satisfies `p` and `rest` does not start
      with one. */
  lemma {:induction false} LeadingWhileAppend(d: string, rest: string, p: char -> bool)
    requires forall i :: 0 <= i < |d| ==> p(d[i])
    requires |rest| > 0 ==> !p(rest[0])
    ensures LeadingWhile(d + rest, p) == d
  {
    if |d| == 0 {
      assert d + rest == rest;
    } else {
      assert (d + rest)[1..] == d[1..] + rest;
      LeadingWhileAppend(d[1..], rest, p);
      assert d == [d[0]] + d[1..];
    }
  }

  /** `parseInt` reads a run of decimal digits followed by anything that is
      not a digit as the run's decimal value, leading zeros included. */
  lemma ParseIntJsDigits(d: string, rest: string)
    requires |d| > 0 && forall i :: 0 <= i < |d| ==> IsDigit(d[i])
    requires |rest| > 0 ==> !IsDigit(rest[0])
    requires |rest| > 0 && d == "0" ==> rest[0] != 'x' && rest[0] != 'X'
    ensures ParseIntJs(d + rest) == ParseNat(d)
  {
    var s := d + rest;
    assert |s| > 0 && IsDigit(s[0]) by { assert s[0] == d[0]; }
    UnsignedDigits(d, rest);
    UnsignedStart(s);
  }

  /** Input starting with a digit skips the whitespace and sign steps. */
  lemma UnsignedStart(s: string)
    requires |s| > 0 && IsDigit(s[0])
    ensures ParseIntJs(s) == match ParseUnsignedJs(s)
                             case Some(n) => Some(n as int)
                             case None => None
  {
    TrimStartOfDigit(s);
  }

  lemma TrimStartOfDigit(s: string)
    requires |s| > 0 && IsDigit(s[0])
    ensures TrimStart(s) == s
  {
  }

  lemma UnsignedDigits(d: string, rest: string)
    requires |d| > 0 && forall i :: 0 <= i < |d| ==> IsDigit(d[i])
    requires |rest| > 0 ==> !IsDigit(rest[0])
    requires |rest| > 0 && d == "0" ==> rest[0] != 'x' && rest[0] != 'X'
    ensures ParseUnsignedJs(d + rest) == Some(Positional(d, 10))
  {
    var s := d + rest;
    assert !(|s| >= 2 && s[0] == '0' && (s[1] == 'x' || s[1] == 'X')) by {
      if |s| >= 2 {
        if |d| >= 2 {
          assert s[1] == d[1] && IsDigit(d[1]);
        } else {
          assert s[1] == rest[0];
        }
      }
    }
    LeadingWhileAppend(d, rest, IsDigit);
    UnsignedOfDecimalRun(s, d);
  }

  lemma UnsignedOfDecimalRun(s: string, d: string)
    requires |d| > 0 && forall i :: 0 <= i < |d| ==> IsDigit(d[i])
    requires !(|s| >= 2 && s[0] == '0' && (s[1] == 'x' || s[1] == 'X'))
    requires LeadingWhile(s, IsDigit) == d
    ensures ParseUnsignedJs(s) == Some(Positional(d, 10))
  {
    assert AllDigitsIn(d, 10);
  }

  /** `parseInt` never reads a `-` after the sign it has consumed, so no
      digit run is negative and an unsigned input yields a natural number. */
  lemma ParseIntJsUnsigned(s: string)
    requires |TrimStart(s)| > 0 ==> TrimStart(s)[0] != '-'
    ensures ParseIntJs(s).Some? ==> ParseIntJs(s).value >= 0
  {
  }

  // ---------------------------------------------------------------------
  // Character search
  // ---------------------------------------------------------------------

  /** The index of the first occurrence of `c` in `s`, if any. */
  function FirstIndexOf(s: string, c: char): (r: Option<nat>)
    ensures r.Some? ==> r.value < |s| && s[r.value] == c && c !in s[..r.value]
    ensures r.None? ==> c !in s
  {
    if |s| == 0 then None
    else if s[0] == c then Some(0)
    else
      match FirstIndexOf(s[1..], c)
      case Some(k) => assert s[..k + 1] == [s[0]] + s[1..][..k]; Some(k + 1)
      case None => None
  }

  /** The index of the last occurrence of `c` in `s`, if any. */
  function LastIndexOf(s: string, c: char): (r: Option<nat>)
    ensures r.Some? ==> r.value < |s| && s[r.value] == c && c !in s[r.value + 1..]
    ensures r.None? ==> c !in s
  {
    if |s| == 0 then None
    else if s[|s| - 1] == c then Some(|s| - 1)
    else
      match LastIndexOf(s[..|s| - 1], c)
      case Some(k) => assert s[k + 1..] == s[..|s| - 1][k + 1..] + [s[|s| - 1]]; Some(k)
      case None => assert s == s[..|s| - 1] + [s[|s| - 1]]; None
  }

  /** In `a + [c] + b` with no `c` in `a`, the first `c` is the one after `a`. */
  lemma FirstIndexOfJoin(a: string, c: char, b: string)
    requires c !in a
    ensures FirstIndexOf(a + [c] + b, c) == Some(|a|)
  {
    var s := a + [c] + b;
    assert s[|a|] == c;
    assert forall k :: 0 <= k < |a| ==> s[k] == a[k];
    var r := FirstIndexOf(s, c);
    assert r.Some?;
    assert r.value <= |a|;
  }

  /** In `a + [c] + b` with no `c` in `b`, the last `c` is the one before `b`. */
  lemma {:induction false} LastIndexOfJoin(a: string, c: char, b: string)
    requires c !in b
    ensures LastIndexOf(a + [c] + b, c) == Some(|a|)
    decreases |b|
  {
    var s := a + [c] + b;
    if b == [] {
      assert s[|s| - 1] == c;
    } else {
      var front := b[..|b| - 1];
      assert s[|s| - 1] == b[|b| - 1];
      assert s[..|s| - 1] == a + [c] + front;
      assert b == front + [b[|b| - 1]];
      LastIndexOfJoin(a, c, front);
    }
  }
}
