/** String operations of the Java and JavaScript standard libraries that the
    core relies on, written out over `seq<char>`. */
module Text {

  // ---------------------------------------------------------------------
  // Character classes
  // ---------------------------------------------------------------------

  /** `String.trim()` in Java strips every character whose code is at most U+0020. */
  predicate IsJavaTrimmable(c: char) { c <= ' ' }

  /** `Character.isWhitespace` in Java (used by `String.isBlank`): the Unicode
      space, line and paragraph separators other than the no-break spaces,
      plus the ASCII controls TAB, LF, VT, FF, CR and FS, GS, RS, US. */
  predicate IsJavaWhitespace(c: char) {
    c == ' ' || c == '\t' || c == '\n' || c == '\U{B}' || c == '\U{C}' || c == '\r'
    || ('\U{1C}' <= c <= '\U{1F}')
    || c == '\U{1680}' || ('\U{2000}' <= c <= '\U{2006}') || ('\U{2008}' <= c <= '\U{200A}')
    || c == '\U{2028}' || c == '\U{2029}' || c == '\U{205F}' || c == '\U{3000}'
  }

  /** `String.prototype.trim` in JavaScript strips WhiteSpace and LineTerminator
      code points: TAB, VT, FF, SPACE, NBSP, ZWNBSP, the Zs category, LF, CR,
      LS and PS. */
  predicate IsJsWhitespace(c: char) {
    c == '\t' || c == '\U{B}' || c == '\U{C}' || c == ' ' || c == '\U{A0}' || c == '\U{FEFF}'
    || c == '\n' || c == '\r' || c == '\U{2028}' || c == '\U{2029}'
    || c == '\U{1680}' || ('\U{2000}' <= c <= '\U{200A}') || c == '\U{202F}' || c == '\U{205F}'
    || c == '\U{3000}'
  }

  predicate IsAsciiDigit(c: char) { '0' <= c <= '9' }

  // ---------------------------------------------------------------------
  // Trimming
  // ---------------------------------------------------------------------

  /** Drops the leading characters that satisfy `ws`. */
  function StripLeading(s: string, ws: char -> bool): (r: string)
    ensures |r| <= |s| && r == s[|s| - |r|..]
    ensures r == [] || !ws(r[0])
    ensures forall i :: 0 <= i < |s| - |r| ==> ws(s[i])
  {
    if s != [] && ws(s[0]) then StripLeading(s[1..], ws) else s
  }

  /** Drops the trailing characters that satisfy `ws`. */
  function StripTrailing(s: string, ws: char -> bool): (r: string)
    ensures |r| <= |s| && r == s[..|r|]
    ensures r == [] || !ws(r[|r| - 1])
    ensures forall i :: |r| <= i < |s| ==> ws(s[i])
  {
    if s != [] && ws(s[|s| - 1]) then StripTrailing(s[..|s| - 1], ws) else s
  }

  /** Strips both ends: the common shape of Java's `trim` and JavaScript's `trim`. */
  function Strip(s: string, ws: char -> bool): (r: string)
    ensures |r| <= |s|
    ensures r == [] || (!ws(r[0]) && !ws(r[|r| - 1]))
    ensures r == [] <==> forall i :: 0 <= i < |s| ==> ws(s[i])
  {
    var lead := StripLeading(s, ws);
    StripTrailing(lead, ws)
  }

  /** Stripping removes exactly the padding around a text that neither starts
      nor ends with a stripped character. */
  lemma {:induction false} StripPadded(p: string, t: string, q: string, ws: char -> bool)
    requires forall i :: 0 <= i < |p| ==> ws(p[i])
    requires forall i :: 0 <= i < |q| ==> ws(q[i])
    requires t != [] && !ws(t[0]) && !ws(t[|t| - 1])
    ensures Strip(p + t + q, ws) == t
  {
    assert p + t + q == p + (t + q);
    assert (t + q)[0] == t[0];
    StripLeadingPadded(p, t + q, ws);
    assert StripLeading(p + t + q, ws) == t + q;
    StripTrailingPadded(t, q, ws);
  }

  lemma {:induction false} StripLeadingPadded(p: string, t: string, ws: char -> bool)
    requires forall i :: 0 <= i < |p| ==> ws(p[i])
    requires t != [] && !ws(t[0])
    ensures StripLeading(p + t, ws) == t
  {
    if p != [] {
      assert (p + t)[0] == p[0] && ws(p[0]);
      assert (p + t)[1..] == p[1..] + t;
      StripLeadingPadded(p[1..], t, ws);
    }
  }

  lemma {:induction false} StripTrailingPadded(t: string, q: string, ws: char -> bool)
    requires forall i :: 0 <= i < |q| ==> ws(q[i])
    requires t != [] && !ws(t[|t| - 1])
    ensures StripTrailing(t + q, ws) == t
  {
    if q != [] {
      assert (t + q)[..|t + q| - 1] == t + q[..|q| - 1];
      StripTrailingPadded(t, q[..|q| - 1], ws);
    } else {
      assert t + q == t;
    }
  }

  /** Java's `String.trim()`. */
  function JavaTrim(s: string): string { Strip(s, IsJavaTrimmable) }

  /** JavaScript's `String.prototype.trim()`. */
  function JsTrim(s: string): string { Strip(s, IsJsWhitespace) }

  // ---------------------------------------------------------------------
  // Splitting
  // ---------------------------------------------------------------------

  /** Every maximal `sep`-free piece of `s`, empty pieces included
      (there is always at least one piece). */
  function SplitAll(s: string, sep: char): (r: seq<string>)
    ensures |r| >= 1
    ensures forall k :: 0 <= k < |r| ==> sep !in r[k]
  {
    if s == [] then [""]
    else
      var rest := SplitAll(s[1..], sep);
      if s[0] == sep then [""] + rest
      else [[s[0]] + rest[0]] + rest[1..]
  }

  /** Glues pieces back together with `sep` between neighbours. */
  function Join(parts: seq<string>, sep: char): string
  {
    if |parts| <= 1 then (if parts == [] then "" else parts[0])
    else parts[0] + [sep] + Join(parts[1..], sep)
  }

  /** Splitting loses nothing: joining the pieces gives back the string. */
  lemma {:induction false} JoinSplitAll(s: string, sep: char)
    ensures Join(SplitAll(s, sep), sep) == s
  {
    if s != [] {
      var rest := SplitAll(s[1..], sep);
      JoinSplitAll(s[1..], sep);
      if s[0] == sep {
        assert SplitAll(s, sep) == [""] + rest;
        assert ([""] + rest)[1..] == rest;
      } else {
        var r := SplitAll(s, sep);
        assert r == [[s[0]] + rest[0]] + rest[1..];
        if |rest| == 1 {
          assert Join(rest, sep) == rest[0];
        } else {
          assert Join(rest, sep) == rest[0] + [sep] + Join(rest[1..], sep);
          assert r[1..] == rest[1..];
        }
      }
    }
  }

  /** A piece free of `sep` is a whole piece on its own. */
  lemma {:induction false} SplitAllNoSep(a: string, sep: char)
    requires sep !in a
    ensures SplitAll(a, sep) == [a]
  {
    if a != [] {
      SplitAllNoSep(a[1..], sep);
      assert [a[0]] + a[1..] == a;
    }
  }

  /** The text before the first `sep` is the first piece, and splitting goes
      on with the rest. */
  lemma {:induction false} SplitAllCons(a: string, sep: char, t: string)
    requires sep !in a
    ensures SplitAll(a + [sep] + t, sep) == [a] + SplitAll(t, sep)
  {
    if a == [] {
      assert a + [sep] + t == [sep] + t;
      assert ([sep] + t)[1..] == t;
    } else {
      var s := a + [sep] + t;
      assert s[1..] == a[1..] + [sep] + t;
      SplitAllCons(a[1..], sep, t);
      assert [a[0]] + a[1..] == a;
    }
  }

  /** Removes the empty strings at the end of a list of pieces. */
  function DropTrailingEmpty(parts: seq<string>): (r: seq<string>)
    ensures |r| <= |parts| && r == parts[..|r|]
    ensures r == [] || r[|r| - 1] != ""
    ensures forall k :: |r| <= k < |parts| ==> parts[k] == ""
  {
    if parts != [] && parts[|parts| - 1] == "" then DropTrailingEmpty(parts[..|parts| - 1])
    else parts
  }

  /** Java's `String.split(sep)` for a separator that is not a regular-expression
      metacharacter: a string without `sep` is returned whole, otherwise all
      pieces are kept except the trailing empty ones. */
  function JavaSplit(s: string, sep: char): (r: seq<string>)
    ensures forall k :: 0 <= k < |r| ==> sep !in r[k]
    ensures sep !in s ==> r == [s]
    ensures sep in s ==> r == [] || r[|r| - 1] != ""
    ensures sep in s ==> |r| <= |SplitAll(s, sep)| && r == SplitAll(s, sep)[..|r|]
    ensures sep in s ==> forall k :: |r| <= k < |SplitAll(s, sep)| ==> SplitAll(s, sep)[k] == ""
  {
    if sep !in s then [s] else DropTrailingEmpty(SplitAll(s, sep))
  }

  /** When the text starts with two `sep`-separated pieces the second of which
      is not empty, Java's `split` yields those two pieces first, whatever
      follows them. */
  lemma JavaSplitLeadingPair(a: string, b: string, t: string, sep: char)
    requires sep !in a && sep !in b && b != ""
    requires t == [] || t[0] == sep
    ensures |JavaSplit(a + [sep] + b + t, sep)| >= 2
    ensures JavaSplit(a + [sep] + b + t, sep)[0] == a
    ensures JavaSplit(a + [sep] + b + t, sep)[1] == b
  {
    var s := a + [sep] + b + t;
    assert s[|a|] == sep;
    assert s == a + [sep] + (b + t);
    SplitAllCons(a, sep, b + t);
    if t == [] {
      assert b + t == b;
      SplitAllNoSep(b, sep);
    } else {
      assert b + t == b + [sep] + t[1..];
      SplitAllCons(b, sep, t[1..]);
    }
    var parts := SplitAll(s, sep);
    assert parts[0] == a && parts[1] == b;
  }

  /** When the second piece is empty, Java's `split` yields either fewer than
      two pieces or an empty second piece. */
  lemma JavaSplitEmptySecond(a: string, t: string, sep: char)
    requires sep !in a
    requires t == [] || t[0] == sep
    ensures |JavaSplit(a + [sep] + t, sep)| < 2 || JavaSplit(a + [sep] + t, sep)[1] == ""
  {
    var s := a + [sep] + t;
    assert s[|a|] == sep;
    SplitAllCons(a, sep, t);
    var parts := SplitAll(s, sep);
    if t == [] {
      assert parts == [a] + [""];
    } else {
      assert t == [sep] + t[1..];
      SplitAllCons([], sep, t[1..]);
      assert [] + [sep] + t[1..] == t;
    }
    assert parts[1] == "";
  }

  // ---------------------------------------------------------------------
  // Length
  // ---------------------------------------------------------------------

  /** Java's `String.length()`: the number of UTF-16 code units, so a
      character outside the Basic Multilingual Plane counts twice. */
  function Utf16Length(s: string): (n: nat)
    ensures |s| <= n <= 2 * |s|
    ensures (forall i :: 0 <= i < |s| ==> (s[i] as int) < 0x1_0000) ==> n == |s|
  {
    if s == [] then 0
    else
      assert forall i :: 1 <= i < |s| ==> s[1..][i - 1] == s[i];
      (if (s[0] as int) < 0x1_0000 then 1 else 2) + Utf16Length(s[1..])
  }

  /** A character needs one code unit inside the Basic Multilingual Plane
      and a surrogate pair outside it. */
  lemma Utf16LengthOfChar(c: char)
    ensures (c as int) < 0x1_0000 ==> Utf16Length([c]) == 1
    ensures (c as int) >= 0x1_0000 ==> Utf16Length([c]) == 2
  {
    assert [c][1..] == [];
  }

  // ---------------------------------------------------------------------
  // Case and suffixes
  // ---------------------------------------------------------------------

  /** Lower-cases ASCII letters and keeps every other character. */
  function ToLower(s: string): (r: string)
    ensures |r| == |s|
    ensures forall i :: 0 <= i < |s| ==>
      r[i] == if 'A' <= s[i] <= 'Z' then (s[i] as int + 32) as char else s[i]
  {
    if s == [] then []
    else [if 'A' <= s[0] <= 'Z' then (s[0] as int + 32) as char else s[0]] + ToLower(s[1..])
  }

  /** Lower-casing twice is lower-casing once. */
  lemma ToLowerIdempotent(s: string)
    ensures ToLower(ToLower(s)) == ToLower(s)
  {
  }

  lemma {:induction false} ToLowerAppend(a: string, b: string)
    ensures ToLower(a + b) == ToLower(a) + ToLower(b)
  {
    if a == [] {
      assert a + b == b;
    } else {
      assert (a + b)[0] == a[0];
      assert (a + b)[1..] == a[1..] + b;
      ToLowerAppend(a[1..], b);
    }
  }

  predicate EndsWith(s: string, suffix: string) {
    |suffix| <= |s| && s[|s| - |suffix|..] == suffix
  }

  lemma EndsWithAppend(s: string, suffix: string)
    ensures EndsWith(s + suffix, suffix)
  {
    assert (s + suffix)[|s|..] == suffix;
  }

  // ---------------------------------------------------------------------
  // Decimal numerals
  // ---------------------------------------------------------------------

  function DigitChar(d: nat): char
    requires d < 10
  {
    ('0' as int + d) as char
  }

  /** The decimal numeral of a natural number, without leading zeros. */
  function NatToDecimal(n: nat): (r: string)
    ensures |r| >= 1 && forall i :: 0 <= i < |r| ==> IsAsciiDigit(r[i])
  {
    if n < 10 then [DigitChar(n)] else NatToDecimal(n / 10) + [DigitChar(n % 10)]
  }

  /** `Long.toString`: a minus sign before the magnitude of a negative value. */
  function LongToDecimal(n: int): (r: string)
    ensures |r| >= 1
    ensures forall i :: 0 <= i < |r| ==> IsAsciiDigit(r[i]) || r[i] == '-'
  {
    if n < 0 then "-" + NatToDecimal(-n) else NatToDecimal(n)
  }

  /** The value of a string of decimal digits. */
  function DigitsValue(s: string): nat
    requires forall i :: 0 <= i < |s| ==> IsAsciiDigit(s[i])
  {
    if s == [] then 0
    else
      assert IsAsciiDigit(s[|s| - 1]);
      DigitsValue(s[..|s| - 1]) * 10 + (s[|s| - 1] as int - '0' as int)
  }

  /** Reading a numeral back gives the number it was printed from. */
  lemma {:induction false} NatToDecimalValue(n: nat)
    ensures DigitsValue(NatToDecimal(n)) == n
  {
    var r := NatToDecimal(n);
    if n >= 10 {
      NatToDecimalValue(n / 10);
      assert r[..|r| - 1] == NatToDecimal(n / 10);
    }
  }

  /** The value of a numeral printed by `LongToDecimal`. */
  function SignedValue(s: string): int
    requires |s| >= 1
    requires forall i :: 0 <= i < |s| ==> IsAsciiDigit(s[i]) || (i == 0 && s[i] == '-')
  {
    if s[0] == '-' then 0 - DigitsValue(s[1..]) as int else DigitsValue(s)
  }

  lemma LongToDecimalValue(n: int)
    ensures var r := LongToDecimal(n);
      (forall i :: 0 <= i < |r| ==> IsAsciiDigit(r[i]) || (i == 0 && r[i] == '-'))
      && SignedValue(r) == n
  {
    var r := LongToDecimal(n);
    if n < 0 {
      NatToDecimalValue(-n);
      assert r[1..] == NatToDecimal(-n);
    } else {
      NatToDecimalValue(n);
    }
  }
}
