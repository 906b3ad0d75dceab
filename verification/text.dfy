/** String and number text helpers shared by the TypeScript and Python parts of
    the system: decimal rendering, the two integer parsers (JavaScript
    `parseInt(s, 10)` and Python `int(s)`), `split`, `replace`, `in` on strings,
    and the code-point order Python uses to compare strings. */
module Text {
  import opened Wrappers

  /* ---------------- digits and decimal rendering ---------------- */

  predicate IsDigit(c: char) { '0' <= c <= '9' }

  predicate AllDigits(s: string) { forall i :: 0 <= i < |s| ==> IsDigit(s[i]) }

  function DigitValue(c: char): nat
    requires IsDigit(c)
  {
    (c as int - '0' as int) as nat
  }

  function DigitChar(d: nat): (c: char)
    requires d < 10
    ensures IsDigit(c) && DigitValue(c) == d
  {
    ('0' as int + d) as char
  }

  /** The number a string of decimal digits denotes (leading zeros allowed). */
  function DigitsValue(s: string): nat
    requires AllDigits(s)
  {
    if |s| == 0 then 0 else DigitsValue(s[..|s| - 1]) * 10 + DigitValue(s[|s| - 1])
  }

  /** Shortest decimal rendering of a natural number: Python `str(n)`, JavaScript `String(n)`. */
  function NatToString(n: nat): (s: string)
    ensures |s| > 0 && AllDigits(s)
    ensures n < 10 <==> |s| == 1
  {
    if n < 10 then [DigitChar(n)] else NatToString(n / 10) + [DigitChar(n % 10)]
  }

  lemma {:induction false} NatToStringRoundTrip(n: nat)
    ensures DigitsValue(NatToString(n)) == n
  {
    if n >= 10 {
      var prefix := NatToString(n / 10);
      NatToStringRoundTrip(n / 10);
      assert NatToString(n)[..|NatToString(n)| - 1] == prefix;
    }
  }

  /** Python `str(i)` for an integer. */
  function IntToString(i: int): string
  {
    if i < 0 then "-" + NatToString(-i) else NatToString(i)
  }

  /** Python `f"{i:02d}"`: at least two characters, zero-padded, the sign counted in the width. */
  function Pad2(i: int): string
  {
    if 0 <= i < 10 then "0" + NatToString(i) else IntToString(i)
  }

  /** In the range 0..99, `f"{i:02d}"` is exactly two digits spelling `i`. */
  lemma Pad2Digits(i: int)
    requires 0 <= i < 100
    ensures |Pad2(i)| == 2 && AllDigits(Pad2(i)) && DigitsValue(Pad2(i)) == i
  {
    NatToStringRoundTrip(i);
    var s := Pad2(i);
    if i < 10 {
      assert s[..1] == "0";
    }
  }

  /* ---------------- whitespace ---------------- */

  /** Characters Python's `str.strip()` and `int()` treat as whitespace (`str.isspace`). */
  predicate IsPyWhite(c: char)
  {
    c == ' ' || c == '\t' || c == '\n' || c == '\U{B}' || c == '\U{C}' || c == '\r'
    || ('\U{1C}' <= c <= '\U{1F}') || c == '\U{85}' || c == '\U{A0}' || c == '\U{1680}'
    || ('\U{2000}' <= c <= '\U{200A}') || c == '\U{2028}' || c == '\U{2029}'
    || c == '\U{202F}' || c == '\U{205F}' || c == '\U{3000}'
  }

  /** Characters JavaScript's `parseInt` skips before the number
      (StrWhiteSpaceChar of ECMA-262: white space and line terminators). */
  predicate IsJsWhite(c: char)
  {
    c == ' ' || c == '\t' || c == '\n' || c == '\U{B}' || c == '\U{C}' || c == '\r'
    || c == '\U{A0}' || c == '\U{1680}' || ('\U{2000}' <= c <= '\U{200A}')
    || c == '\U{2028}' || c == '\U{2029}' || c == '\U{202F}' || c == '\U{205F}'
    || c == '\U{3000}' || c == '\U{FEFF}'
  }

  function TrimLeft(s: string, white: char -> bool): (r: string)
    ensures |r| <= |s| && r == s[|s| - |r|..]
    ensures |r| > 0 ==> !white(r[0])
  {
    if |s| > 0 && white(s[0]) then TrimLeft(s[1..], white) else s
  }

  function TrimRight(s: string, white: char -> bool): (r: string)
    ensures |r| <= |s| && r == s[..|r|]
    ensures |r| > 0 ==> !white(r[|r| - 1])
  {
    if |s| > 0 && white(s[|s| - 1]) then TrimRight(s[..|s| - 1], white) else s
  }

  /** Python `s.strip()`. */
  function Strip(s: string): string
  {
    TrimRight(TrimLeft(s, IsPyWhite), IsPyWhite)
  }

  /* ---------------- JavaScript parseInt(s, 10) ---------------- */

  /** The longest prefix of `s` made of decimal digits. */
  function DigitPrefix(s: string): (p: string)
    ensures AllDigits(p) && |p| <= |s| && p == s[..|p|]
    ensures |p| < |s| ==> !IsDigit(s[|p|])
  {
    if |s| > 0 && IsDigit(s[0]) then [s[0]] + DigitPrefix(s[1..]) else []
  }

  /** JavaScript `parseInt(s, 10)`: skip leading white space, read an optional sign
      and then as many decimal digits as there are; `None` stands for `NaN`
      (no digit at all). Trailing characters are ignored. */
  function JsParseInt(s: string): Option<int>
  {
    var t := TrimLeft(s, IsJsWhite);
    var neg := |t| > 0 && t[0] == '-';
    var body := if |t| > 0 && (t[0] == '-' || t[0] == '+') then t[1..] else t;
    var digits := DigitPrefix(body);
    if |digits| == 0 then None
    else Some(if neg then -(DigitsValue(digits) as int) else DigitsValue(digits))
  }

  /* ---------------- Python int(s) ---------------- */

  /** Python's grammar for the digits of `int(s)`: decimal digits, single
      underscores allowed only between two digits. */
  predicate PyDigitGroups(s: string)
  {
    && |s| > 0 && IsDigit(s[0])
    && (|s| == 1 || if s[1] == '_' then PyDigitGroups(s[2..]) else PyDigitGroups(s[1..]))
  }

  function RemoveUnderscores(s: string): (r: string)
    ensures |r| <= |s|
  {
    if |s| == 0 then [] else (if s[0] == '_' then [] else [s[0]]) + RemoveUnderscores(s[1..])
  }

  lemma {:induction false} RemoveUnderscoresOfGroups(s: string)
    requires PyDigitGroups(s)
    ensures AllDigits(RemoveUnderscores(s))
  {
    if |s| > 1 {
      if s[1] == '_' {
        RemoveUnderscoresOfGroups(s[2..]);
        assert RemoveUnderscores(s[1..]) == RemoveUnderscores(s[2..]);
      } else {
        RemoveUnderscoresOfGroups(s[1..]);
      }
    }
  }

  lemma {:induction false} RemoveUnderscoresOfDigits(s: string)
    requires AllDigits(s)
    ensures RemoveUnderscores(s) == s
  {
    if |s| > 0 {
      RemoveUnderscoresOfDigits(s[1..]);
      assert [s[0]] + s[1..] == s;
    }
  }

  lemma {:induction false} DigitsAreGroups(s: string)
    requires |s| > 0 && AllDigits(s)
    ensures PyDigitGroups(s)
  {
    if |s| > 1 {
      DigitsAreGroups(s[1..]);
    }
  }

  /** Python `int(s)` for a string whose digits are ASCII: surrounding white
      space stripped, an optional sign, then the digit groups; `None` stands for
      the `ValueError`. Python also reads every other Unicode decimal digit
      (fullwidth `１０` is 10); such text gives `None` here. */
  function PyInt(s: string): Option<int>
  {
    PySigned(Strip(s))
  }

  /** `int()` after the white space is gone: optional sign, then digit groups. */
  function PySigned(t: string): Option<int>
  {
    var neg := |t| > 0 && t[0] == '-';
    var body := if |t| > 0 && (t[0] == '-' || t[0] == '+') then t[1..] else t;
    if !PyDigitGroups(body) then None
    else
      RemoveUnderscoresOfGroups(body);
      var v := DigitsValue(RemoveUnderscores(body));
      Some(if neg then -(v as int) else v)
  }

  lemma StripDigits(s: string)
    requires |s| > 0 && AllDigits(s)
    ensures Strip(s) == s
  {
    StripNoWhiteEnds(s);
  }

  lemma StripNoWhiteEnds(s: string)
    requires |s| > 0 && !IsPyWhite(s[0]) && !IsPyWhite(s[|s| - 1])
    ensures Strip(s) == s
  {
  }

  /** `int()` of a string with no sign and no surrounding white space: its
      digit groups, or an error. */
  lemma PyIntUnsigned(s: string)
    requires |s| > 0 && !IsPyWhite(s[0]) && !IsPyWhite(s[|s| - 1]) && s[0] != '-' && s[0] != '+'
    ensures !PyDigitGroups(s) ==> PyInt(s).None?
    ensures PyDigitGroups(s) ==> AllDigits(RemoveUnderscores(s)) && PyInt(s) == Some(DigitsValue(RemoveUnderscores(s)) as int)
  {
    StripNoWhiteEnds(s);
    if PyDigitGroups(s) {
      RemoveUnderscoresOfGroups(s);
    }
  }

  /** `int()` reads back a plain digit string, leading zeros included. */
  lemma PyIntOfDigits(s: string)
    requires |s| > 0 && AllDigits(s)
    ensures PyInt(s) == Some(DigitsValue(s) as int)
  {
    StripDigits(s);
    PySignedDigits(s);
  }

  lemma PySignedNegative(d: string)
    requires |d| > 0 && AllDigits(d)
    ensures PySigned("-" + d) == Some(-(DigitsValue(d) as int))
  {
    var s := "-" + d;
    assert |s| > 0 && s[0] == '-';
    assert s[1..] == d;
    PySignedMinus(s, d);
  }

  lemma PySignedMinus(s: string, d: string)
    requires |s| > 0 && s[0] == '-' && s[1..] == d && |d| > 0 && AllDigits(d)
    ensures PySigned(s) == Some(-(DigitsValue(d) as int))
  {
    DigitsAreGroups(d);
    RemoveUnderscoresOfDigits(d);
  }

  lemma PySignedDigits(s: string)
    requires |s| > 0 && AllDigits(s)
    ensures PySigned(s) == Some(DigitsValue(s) as int)
  {
    assert !(s[0] == '-' || s[0] == '+');
    DigitsAreGroups(s);
    RemoveUnderscoresOfDigits(s);
  }

  /** `int(str(i)) == i` for every integer. */
  lemma PyIntOfIntToString(i: int)
    ensures PyInt(IntToString(i)) == Some(i)
  {
    var n: nat := if i < 0 then -i else i;
    NatToStringRoundTrip(n);
    var d := NatToString(n);
    if i < 0 {
      var s := "-" + d;
      assert IsDigit(s[|s| - 1]);
      StripNoWhiteEnds(s);
      PySignedNegative(d);
    } else {
      PyIntOfDigits(d);
    }
  }

  /** `int(f"{i:02d}") == i` for the two-digit range every clock field uses. */
  lemma PyIntOfPad2(i: int)
    requires 0 <= i < 100
    ensures PyInt(Pad2(i)) == Some(i)
  {
    Pad2Digits(i);
    PyIntOfDigits(Pad2(i));
  }

  /* ---------------- split, replace, contains ---------------- */

  /** Python `s.split(sep)` for a one-character separator: every piece, empty ones included. */
  function Split(s: string, sep: char): (parts: seq<string>)
    ensures |parts| > 0
  {
    if |s| == 0 then [""]
    else if s[0] == sep then [""] + Split(s[1..], sep)
    else
      var rest := Split(s[1..], sep);
      [[s[0]] + rest[0]] + rest[1..]
  }

  lemma {:induction false} SplitNoSep(s: string, sep: char)
    requires sep !in s
    ensures Split(s, sep) == [s]
  {
    if |s| > 0 {
      assert sep !in s[1..] by { assert forall x :: x in s[1..] ==> x in s; }
      SplitNoSep(s[1..], sep);
      assert [s[0]] + s[1..] == s;
    }
  }

  /** Splitting at the first separator peels off the piece before it. */
  lemma {:induction false} SplitCons(a: string, sep: char, b: string)
    requires sep !in a
    ensures Split(a + [sep] + b, sep) == [a] + Split(b, sep)
  {
    var s := a + [sep] + b;
    if |a| == 0 {
      assert s[1..] == b;
    } else {
      assert s[1..] == a[1..] + [sep] + b;
      assert sep !in a[1..] by { assert forall x :: x in a[1..] ==> x in a; }
      SplitCons(a[1..], sep, b);
      assert [a[0]] + a[1..] == a;
    }
  }

  /** Python `s.replace(old, new)`: every non-overlapping occurrence, left to right. */
  function ReplaceAll(s: string, pat: string, rep: string): string
    requires |pat| > 0
  {
    if |s| < |pat| then s
    else if s[..|pat|] == pat then rep + ReplaceAll(s[|pat|..], pat, rep)
    else [s[0]] + ReplaceAll(s[1..], pat, rep)
  }

  /** JavaScript `s.replace(old, new)` with a string pattern: the first occurrence only. */
  function ReplaceFirst(s: string, pat: string, rep: string): string
    requires |pat| > 0
  {
    if |s| < |pat| then s
    else if s[..|pat|] == pat then rep + s[|pat|..]
    else [s[0]] + ReplaceFirst(s[1..], pat, rep)
  }

  lemma {:induction false} ReplaceAllAbsentChar(s: string, c: char, rep: string)
    requires c !in s
    ensures ReplaceAll(s, [c], rep) == s
  {
    if |s| >= 1 {
      assert s[..1] != [c] by { assert s[0] != c; }
      ReplaceAllAbsentChar(s[1..], c, rep);
    }
  }

  lemma {:induction false} ReplaceFirstAbsentChar(s: string, c: char, rep: string)
    requires c !in s
    ensures ReplaceFirst(s, [c], rep) == s
  {
    if |s| >= 1 {
      assert s[..1] != [c] by { assert s[0] != c; }
      ReplaceFirstAbsentChar(s[1..], c, rep);
    }
  }

  /** A string of digits is its own longest digit prefix. */
  lemma {:induction false} DigitPrefixOfDigits(s: string)
    requires AllDigits(s)
    ensures DigitPrefix(s) == s
  {
    if |s| > 0 {
      DigitPrefixOfDigits(s[1..]);
    }
  }

  /** `parseInt` reads back a plain digit string. */
  lemma JsParseIntOfDigits(d: string)
    requires |d| > 0 && AllDigits(d)
    ensures JsParseInt(d) == Some(DigitsValue(d) as int)
  {
    assert !IsJsWhite(d[0]);
    assert TrimLeft(d, IsJsWhite) == d;
    assert !(d[0] == '-' || d[0] == '+');
    DigitPrefixOfDigits(d);
  }

  /** The digit prefix stops at the first character that is not a digit. */
  lemma {:induction false} DigitPrefixThen(d: string, rest: string)
    requires AllDigits(d) && (|rest| == 0 || !IsDigit(rest[0]))
    ensures DigitPrefix(d + rest) == d
  {
    if |d| > 0 {
      assert (d + rest)[1..] == d[1..] + rest;
      DigitPrefixThen(d[1..], rest);
    } else {
      assert d + rest == rest;
    }
  }

  /** `parseInt` reads the leading digits and ignores what follows them. */
  lemma JsParseIntPrefix(d: string, rest: string)
    requires |d| > 0 && AllDigits(d) && (|rest| == 0 || !IsDigit(rest[0]))
    ensures JsParseInt(d + rest) == Some(DigitsValue(d) as int)
  {
    var s := d + rest;
    assert s[0] == d[0];
    assert TrimLeft(s, IsJsWhite) == s by { assert !IsJsWhite(s[0]); }
    assert !(s[0] == '-' || s[0] == '+');
    DigitPrefixThen(d, rest);
  }

  /** `parseInt` reads back a minus sign followed by digits. */
  lemma JsParseIntOfNegative(d: string)
    requires |d| > 0 && AllDigits(d)
    ensures JsParseInt("-" + d) == Some(-(DigitsValue(d) as int))
  {
    var m := "-" + d;
    DigitPrefixOfDigits(d);
    assert m[0] == '-' && m[1..] == d;
    assert TrimLeft(m, IsJsWhite) == m by { assert !IsJsWhite(m[0]); }
  }

  predicate StartsWith(s: string, prefix: string)
  {
    |prefix| <= |s| && s[..|prefix|] == prefix
  }

  /** Python `sub in s`, JavaScript `s.includes(sub)`. */
  predicate Contains(s: string, sub: string)
  {
    StartsWith(s, sub) || (|s| > 0 && Contains(s[1..], sub))
  }

  /** Index of the first occurrence of `pat` in `s`. */
  function FindFirst(s: string, pat: string): (r: Option<nat>)
    ensures r.Some? ==> r.value + |pat| <= |s| && s[r.value..r.value + |pat|] == pat
    ensures r.Some? ==> forall i :: 0 <= i < r.value ==> !StartsWith(s[i..], pat)
  {
    if StartsWith(s, pat) then Some(0)
    else if |s| == 0 then None
    else match FindFirst(s[1..], pat)
      case None => None
      case Some(i) =>
        assert forall j :: 1 <= j <= i ==> s[j..] == s[1..][j - 1..];
        Some(i + 1)
  }

  /** Python `s.split(pat, 1)[-1]`: what follows the first occurrence of `pat`,
      or the whole string when there is none. */
  function AfterFirst(s: string, pat: string): string
  {
    match FindFirst(s, pat)
    case None => s
    case Some(i) => s[i + |pat|..]
  }

  function LowerChar(c: char): char
  {
    if 'A' <= c <= 'Z' then (c as int + 32) as char else c
  }

  /** ASCII lower-casing (Python `str.lower()` on ASCII text). */
  function LowerAscii(s: string): (r: string)
    ensures |r| == |s|
  {
    if |s| == 0 then [] else [LowerChar(s[0])] + LowerAscii(s[1..])
  }

  lemma {:induction false} LowerAsciiAt(s: string, i: nat)
    requires i < |s|
    ensures LowerAscii(s)[i] == LowerChar(s[i])
  {
    if i > 0 {
      LowerAsciiAt(s[1..], i - 1);
    }
  }

  /** Lower-casing works character by character, so it distributes over `+`. */
  lemma LowerAsciiConcat(a: string, b: string)
    ensures LowerAscii(a + b) == LowerAscii(a) + LowerAscii(b)
  {
    forall i | 0 <= i < |a + b| ensures LowerAscii(a + b)[i] == (LowerAscii(a) + LowerAscii(b))[i] {
      LowerAsciiAt(a + b, i);
      if i < |a| {
        LowerAsciiAt(a, i);
      } else {
        LowerAsciiAt(b, i - |a|);
      }
    }
  }

  lemma LowerAsciiNoUpper(s: string)
    requires forall i :: 0 <= i < |s| ==> !('A' <= s[i] <= 'Z')
    ensures LowerAscii(s) == s
  {
    forall i | 0 <= i < |s| ensures LowerAscii(s)[i] == s[i] {
      LowerAsciiAt(s, i);
    }
  }

  /* ---------------- replace and contains over concatenations ---------------- */

  /** With a one-character pattern no occurrence straddles a join, so
      `replace` distributes over `+`. */
  lemma {:induction false} ReplaceAllConcatChar(a: string, b: string, c: char, rep: string)
    ensures ReplaceAll(a + b, [c], rep) == ReplaceAll(a, [c], rep) + ReplaceAll(b, [c], rep)
  {
    if |a| > 0 {
      var s := a + b;
      assert s[1..] == a[1..] + b;
      assert s[..1] == a[..1];
      ReplaceAllConcatChar(a[1..], b, c, rep);
    } else {
      assert a + b == b;
    }
  }

  /** A prefix holding no first character of the pattern is copied unchanged. */
  lemma {:induction false} ReplaceAllSkip(a: string, b: string, pat: string, rep: string)
    requires |pat| > 0 && pat[0] !in a
    ensures ReplaceAll(a + b, pat, rep) == a + ReplaceAll(b, pat, rep)
  {
    var s := a + b;
    if |a| > 0 {
      assert s[1..] == a[1..] + b;
      assert pat[0] !in a[1..] by { assert forall x :: x in a[1..] ==> x in a; }
      ReplaceAllSkip(a[1..], b, pat, rep);
      if |s| >= |pat| {
        assert s[..|pat|] != pat by { assert s[0] == a[0] != pat[0]; }
      } else {
        assert |b| < |pat|;
      }
      assert [a[0]] + a[1..] == a;
    } else {
      assert s == b;
    }
  }

  /** A string without the pattern's first character does not contain it. */
  lemma {:induction false} NotContainsAbsentHead(s: string, pat: string)
    requires |pat| > 0 && pat[0] !in s
    ensures !Contains(s, pat)
  {
    if |s| > 0 {
      assert pat[0] !in s[1..] by { assert forall x :: x in s[1..] ==> x in s; }
      NotContainsAbsentHead(s[1..], pat);
      if |pat| <= |s| {
        assert s[..|pat|][0] == s[0];
      }
    }
  }

  /** A string ending with the pattern contains it. */
  lemma {:induction false} ContainsEnding(a: string, pat: string)
    ensures Contains(a + pat, pat)
  {
    if |a| > 0 {
      ContainsEnding(a[1..], pat);
      assert (a + pat)[1..] == a[1..] + pat;
    } else {
      assert (a + pat)[..|pat|] == pat;
    }
  }

  /* ---------------- ordering of strings ---------------- */

  /** Python `a < b` on strings: lexicographic by code point, a proper prefix first. */
  predicate LexLess(a: string, b: string)
  {
    if |a| == 0 then |b| > 0
    else if |b| == 0 then false
    else if a[0] != b[0] then a[0] < b[0]
    else LexLess(a[1..], b[1..])
  }

  lemma {:induction false} LexLessIrreflexive(a: string)
    ensures !LexLess(a, a)
  {
    if |a| > 0 {
      LexLessIrreflexive(a[1..]);
    }
  }

  lemma {:induction false} LexLessTransitive(a: string, b: string, c: string)
    requires LexLess(a, b) && LexLess(b, c)
    ensures LexLess(a, c)
  {
    if |a| > 0 && |b| > 0 && |c| > 0 && a[0] == b[0] && b[0] == c[0] {
      LexLessTransitive(a[1..], b[1..], c[1..]);
    }
  }

  lemma {:induction false} LexLessTotal(a: string, b: string)
    ensures a == b || LexLess(a, b) || LexLess(b, a)
  {
    if |a| > 0 && |b| > 0 && a[0] == b[0] {
      LexLessTotal(a[1..], b[1..]);
      if a[1..] == b[1..] {
        assert a == [a[0]] + a[1..] && b == [b[0]] + b[1..];
      }
    }
  }
}
