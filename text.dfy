/** Character and string operations the application performs with JavaScript's
    built-ins: template-literal rendering of integers, string comparison,
    `trim`, `split`, `replace` and the character-class regular expressions of
    the currency inputs. Characters are Unicode scalar values. */
module Text {
  import opened Wrappers

  // ---------------------------------------------------------------------------
  // Digits and decimal rendering of integers (`${n}` in a template literal)
  // ---------------------------------------------------------------------------

  /** The regular-expression class `\d`: the ASCII digits only. */
  predicate IsDigit(c: char) { '0' <= c <= '9' }

  predicate AllDigits(s: string) { forall i :: 0 <= i < |s| ==> IsDigit(s[i]) }

  function DigitChar(d: nat): (c: char)
    requires d < 10
    ensures IsDigit(c)
  {
    (d + '0' as int) as char
  }

  function DigitValue(c: char): (d: nat)
    requires IsDigit(c)
    ensures d < 10 && DigitChar(d) == c
  {
    c as int - '0' as int
  }

  /** The decimal digits of `n`, most significant first, without leading zeros. */
  function NatToString(n: nat): (s: string)
    ensures |s| > 0 && AllDigits(s)
    ensures s[0] == '0' ==> n == 0
  {
    if n < 10 then [DigitChar(n)] else NatToString(n / 10) + [DigitChar(n % 10)]
  }

  /** How a JavaScript integer is rendered by `String(n)` or `${n}`. */
  function IntToString(n: int): (s: string)
    ensures |s| > 0
    ensures s[0] == '-' <==> n < 0
    ensures '/' !in s && ' ' !in s
  {
    if n < 0 then "-" + NatToString(-n) else NatToString(n)
  }

  /** Reads a string of decimal digits back as a number. */
  function ParseNat(s: string): nat
    requires AllDigits(s)
  {
    if s == [] then 0 else ParseNat(s[..|s| - 1]) * 10 + DigitValue(s[|s| - 1])
  }

  /** Reads an optionally negative decimal integer; `None` for anything else. */
  function ParseInt(s: string): Option<int>
  {
    if |s| > 0 && AllDigits(s) then Some(ParseNat(s))
    else if |s| > 1 && s[0] == '-' && AllDigits(s[1..]) then Some(0 - ParseNat(s[1..]) as int)
    else None
  }

  lemma {:induction false} ParseNatOfNatToString(n: nat)
    ensures ParseNat(NatToString(n)) == n
  {
    if n >= 10 {
      var s := NatToString(n);
      assert s[..|s| - 1] == NatToString(n / 10);
      ParseNatOfNatToString(n / 10);
    }
  }

  /** Rendering an integer loses nothing: parsing the text gives it back. */
  lemma IntToStringRoundTrip(n: int)
    ensures ParseInt(IntToString(n)) == Some(n)
  {
    if n < 0 {
      var s := IntToString(n);
      assert s[1..] == NatToString(-n);
      ParseNatOfNatToString(-n);
    } else {
      ParseNatOfNatToString(n);
    }
  }

  /** Two integers with the same rendering are equal. */
  lemma IntToStringInjective(m: int, n: int)
    requires IntToString(m) == IntToString(n)
    ensures m == n
  {
    IntToStringRoundTrip(m);
    IntToStringRoundTrip(n);
  }

  // ---------------------------------------------------------------------------
  // String comparison (`<` on strings, `Array.prototype.sort` default order)
  // ---------------------------------------------------------------------------

  /** Lexicographic order by character. JavaScript compares UTF-16 code
      units instead; the two orders agree on texts without characters above
      U+FFFF, such as account ids and `yyyy-MM-dd` dates. */
  predicate StrLe(a: string, b: string)
  {
    a == [] || (b != [] && (a[0] < b[0] || (a[0] == b[0] && StrLe(a[1..], b[1..]))))
  }

  /** The strict order. */
  predicate StrLt(a: string, b: string) { StrLe(a, b) && a != b }

  lemma {:induction false} StrLeTotal(a: string, b: string)
    ensures StrLe(a, b) || StrLe(b, a)
  {
    if a != [] && b != [] && a[0] == b[0] {
      StrLeTotal(a[1..], b[1..]);
    }
  }

  lemma {:induction false} StrLeAntisymmetric(a: string, b: string)
    requires StrLe(a, b) && StrLe(b, a)
    ensures a == b
  {
    if a != [] && b != [] {
      StrLeAntisymmetric(a[1..], b[1..]);
      assert a == [a[0]] + a[1..] && b == [b[0]] + b[1..];
    }
  }

  lemma {:induction false} StrLeReflexive(a: string)
    ensures StrLe(a, a)
  {
    if a != [] {
      StrLeReflexive(a[1..]);
    }
  }

  lemma {:induction false} StrLeTransitive(a: string, b: string, c: string)
    requires StrLe(a, b) && StrLe(b, c)
    ensures StrLe(a, c)
  {
    if a != [] && b != [] && c != [] && a[0] == b[0] && b[0] == c[0] {
      StrLeTransitive(a[1..], b[1..], c[1..]);
    }
  }

  /** A common prefix does not change the order. */
  lemma {:induction false} StrLeCommonPrefix(p: string, a: string, b: string)
    ensures StrLe(p + a, p + b) <==> StrLe(a, b)
  {
    if p == [] {
      assert p + a == a && p + b == b;
    } else {
      assert (p + a)[0] == p[0] == (p + b)[0];
      assert (p + a)[1..] == p[1..] + a && (p + b)[1..] == p[1..] + b;
      StrLeCommonPrefix(p[1..], a, b);
    }
  }

  /** Between texts of the same length, the strict order decides the order of
      anything that follows them. */
  lemma {:induction false} StrLtSameLength(a: string, b: string, x: string, y: string)
    requires |a| == |b| && StrLt(a, b)
    ensures StrLt(a + x, b + y)
  {
    assert (a + x)[0] == a[0] && (b + y)[0] == b[0];
    if a[0] == b[0] {
      assert a == [a[0]] + a[1..] && b == [b[0]] + b[1..];
      assert (a + x)[1..] == a[1..] + x && (b + y)[1..] == b[1..] + y;
      StrLtSameLength(a[1..], b[1..], x, y);
    }
  }

  // ---------------------------------------------------------------------------
  // `String.prototype.trim`
  // ---------------------------------------------------------------------------

  /** The characters `trim` removes: white space and line terminators. */
  predicate IsJsWhitespace(c: char)
  {
    c == '\t' || c == '\n' || c == '\U{B}' || c == '\U{C}' || c == '\r' || c == ' '
    || c == '\U{A0}' || c == '\U{1680}' || ('\U{2000}' <= c <= '\U{200A}')
    || c == '\U{2028}' || c == '\U{2029}' || c == '\U{202F}' || c == '\U{205F}'
    || c == '\U{3000}' || c == '\U{FEFF}'
  }

  predicate AllWhitespace(s: string) { forall i :: 0 <= i < |s| ==> IsJsWhitespace(s[i]) }

  function TrimStart(s: string): (r: string)
    ensures |r| <= |s| && r == s[|s| - |r|..]
    ensures AllWhitespace(s[..|s| - |r|])
    ensures r == [] || !IsJsWhitespace(r[0])
  {
    if s != [] && IsJsWhitespace(s[0]) then TrimStart(s[1..]) else s
  }

  function TrimEnd(s: string): (r: string)
    ensures |r| <= |s| && r == s[..|r|]
    ensures AllWhitespace(s[|r|..])
    ensures r == [] || !IsJsWhitespace(r[|r| - 1])
  {
    if s != [] && IsJsWhitespace(s[|s| - 1]) then TrimEnd(s[..|s| - 1]) else s
  }

  /** `s.trim()`. */
  function Trim(s: string): (r: string)
  {
    TrimEnd(TrimStart(s))
  }

  /** A trimmed string is empty exactly when the input was all white space,
      and otherwise begins and ends with a character that is not. */
  lemma TrimProperties(s: string)
    ensures Trim(s) == [] <==> AllWhitespace(s)
    ensures Trim(s) != [] ==> !IsJsWhitespace(Trim(s)[0]) && !IsJsWhitespace(Trim(s)[|Trim(s)| - 1])
  {
    var t := TrimStart(s);
    var r := TrimEnd(t);
    if r != [] {
      assert r[0] == t[0];
    }
  }

  /** Trimming twice is trimming once. */
  lemma TrimIdempotent(s: string)
    ensures Trim(Trim(s)) == Trim(s)
  {
    TrimProperties(s);
  }

  // ---------------------------------------------------------------------------
  // `split` and `replace`
  // ---------------------------------------------------------------------------

  /** `s.split(c)[0]`: the text before the first `c`, or all of `s`. */
  function BeforeFirst(s: string, c: char): (r: string)
    ensures c !in r
    ensures r <= s
    ensures r == s || s[|r|] == c
  {
    if s == [] then [] else if s[0] == c then [] else [s[0]] + BeforeFirst(s[1..], c)
  }

  /** The text before the first `c` of a text that joins `x` and `y` with `c` is `x`. */
  lemma {:induction false} BeforeFirstOfJoin(x: string, y: string, c: char)
    requires c !in x
    ensures BeforeFirst(x + [c] + y, c) == x
  {
    if x != [] {
      assert (x + [c] + y)[1..] == x[1..] + [c] + y;
      BeforeFirstOfJoin(x[1..], y, c);
    }
  }

  /** `s.replace(a, b)` with a one-character pattern: only the first `a`. */
  function ReplaceFirst(s: string, a: char, b: char): (r: string)
    ensures |r| == |s|
  {
    if s == [] then [] else if s[0] == a then [b] + s[1..] else [s[0]] + ReplaceFirst(s[1..], a, b)
  }

  /** Number of occurrences of `c` in `s`. */
  function Occurrences(s: string, c: char): nat
  {
    if s == [] then 0 else (if s[0] == c then 1 else 0) + Occurrences(s[1..], c)
  }

  lemma {:induction false} OccurrencesZero(s: string, c: char)
    ensures Occurrences(s, c) == 0 <==> c !in s
  {
    if s != [] {
      OccurrencesZero(s[1..], c);
      assert c in s <==> s[0] == c || c in s[1..];
    }
  }

  /** Replacing the first `a` by `b`, when `b` did not occur, creates at most
      one `b`; replacing it back restores the string. */
  lemma {:induction false} ReplaceFirstBack(s: string, a: char, b: char)
    requires a != b && b !in s
    ensures Occurrences(ReplaceFirst(s, a, b), b) <= 1
    ensures ReplaceFirst(ReplaceFirst(s, a, b), b, a) == s
  {
    if s != [] {
      if s[0] == a {
        assert b !in s[1..];
        OccurrencesZero(s[1..], b);
      } else {
        assert b !in s[1..];
        ReplaceFirstBack(s[1..], a, b);
      }
    }
  }

  /** `s` without its last `c` (unchanged when `c` does not occur). */
  function RemoveLast(s: string, c: char): (r: string)
  {
    if s == [] then []
    else if s[|s| - 1] == c then s[..|s| - 1]
    else RemoveLast(s[..|s| - 1], c) + [s[|s| - 1]]
  }

  /** `s.replace(/(\..*)\./g, '$1')` on a string without line terminators: the
      greedy match runs from the first dot to the last one, and the dot it
      consumes at the end is dropped, so a string with two or more dots loses
      its last dot and any other string is unchanged. */
  function DropLastOfSeveralDots(s: string): (r: string)
  {
    if Occurrences(s, '.') >= 2 then RemoveLast(s, '.') else s
  }

  /** The character class `[\d,]`. */
  predicate IsDigitOrComma(c: char) { IsDigit(c) || c == ',' }

  /** `s.replace(/[^\d,]/g, '')`: the digits and commas of `s`, in order. */
  function KeepDigitsAndCommas(s: string): (r: string)
    ensures forall i :: 0 <= i < |r| ==> IsDigitOrComma(r[i])
    ensures |r| <= |s|
  {
    if s == [] then []
    else (if IsDigitOrComma(s[0]) then [s[0]] else []) + KeepDigitsAndCommas(s[1..])
  }

  /** Filtering text that already consists of digits and commas changes nothing. */
  lemma {:induction false} KeepDigitsAndCommasFixed(s: string)
    requires forall i :: 0 <= i < |s| ==> IsDigitOrComma(s[i])
    ensures KeepDigitsAndCommas(s) == s
  {
    if s != [] {
      KeepDigitsAndCommasFixed(s[1..]);
    }
  }

  lemma {:induction false} KeepDigitsAndCommasHasNoDot(s: string)
    ensures '.' !in KeepDigitsAndCommas(s)
  {
    var r := KeepDigitsAndCommas(s);
    assert forall i :: 0 <= i < |r| ==> r[i] != '.';
  }

  // ---------------------------------------------------------------------------
  // Two-decimal rendering of cents: `(cents / 100).toFixed(2).replace('.', ',')`
  // ---------------------------------------------------------------------------

  function Abs(n: int): nat { if n < 0 then -n else n }

  /** The reais and two cent digits of `cents`, with a decimal comma. */
  function CentsText(cents: int): (s: string)
    ensures |s| >= 4
  {
    var a := Abs(cents);
    (if cents < 0 then "-" else "") + NatToString(a / 100) + "," + [DigitChar(a % 100 / 10), DigitChar(a % 10)]
  }

  /** A non-negative amount is rendered with digits and a single comma only. */
  lemma CentsTextDigitsAndComma(cents: int)
    requires cents >= 0
    ensures forall i :: 0 <= i < |CentsText(cents)| ==> IsDigitOrComma(CentsText(cents)[i])
    ensures Occurrences(CentsText(cents), ',') == 1
  {
    var whole := NatToString(cents / 100);
    var tail := [',', DigitChar(cents % 100 / 10), DigitChar(cents % 10)];
    assert CentsText(cents) == whole + tail;
    OccurrencesAppend(whole, tail, ',');
    assert forall i :: 0 <= i < |whole| ==> whole[i] != ',';
    OccurrencesZero(whole, ',');
    assert Occurrences(tail[2..], ',') == 0 by { assert tail[2..][1..] == []; }
    assert tail[1..][1..] == tail[2..];
  }

  lemma {:induction false} OccurrencesAppend(a: string, b: string, c: char)
    ensures Occurrences(a + b, c) == Occurrences(a, c) + Occurrences(b, c)
  {
    if a == [] {
      assert a + b == b;
    } else {
      assert (a + b)[0] == a[0] && (a + b)[1..] == a[1..] + b;
      OccurrencesAppend(a[1..], b, c);
    }
  }
}
