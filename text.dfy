/**
 * The JavaScript string operations the application relies on, over `string`
 * (a sequence of Unicode scalar values): `trim`, `split` on one character,
 * `join`, `startsWith`, `includes`, `padStart`, `substring(0, n)`, decimal
 * rendering of numbers, and the code-point order used in place of
 * `localeCompare`.
 */
module Text {

  /** ECMAScript WhiteSpace and LineTerminator code points: what `trim` removes. */
  predicate IsWhite(c: char) {
    c == '\t' || c == '\n' || c == '\U{000B}' || c == '\U{000C}' || c == '\r' || c == ' ' ||
    c == '\U{00A0}' || c == '\U{1680}' || ('\U{2000}' <= c <= '\U{200A}') ||
    c == '\U{2028}' || c == '\U{2029}' || c == '\U{202F}' || c == '\U{205F}' ||
    c == '\U{3000}' || c == '\U{FEFF}'
  }

  predicate AllWhite(s: string) {
    forall i :: 0 <= i < |s| ==> IsWhite(s[i])
  }

  /** `s.trimStart()`: drops the leading white space and nothing else. */
  function TrimStart(s: string): (r: string)
    ensures |r| <= |s| && r == s[|s| - |r|..]
    ensures AllWhite(s[..|s| - |r|])
    ensures r == [] || !IsWhite(r[0])
    decreases |s|
  {
    if |s| > 0 && IsWhite(s[0]) then
      var r := TrimStart(s[1..]);
      assert s[1..][|s| - 1 - |r|..] == s[|s| - |r|..];
      assert forall i :: 0 < i < |s| - |r| ==> s[i] == s[1..][..|s| - 1 - |r|][i - 1];
      r
    else s
  }

  /** `s.trimEnd()`: drops the trailing white space and nothing else. */
  function TrimEnd(s: string): (r: string)
    ensures |r| <= |s| && r == s[..|r|]
    ensures AllWhite(s[|r|..])
    ensures r == [] || !IsWhite(r[|r| - 1])
    ensures s != [] && !IsWhite(s[0]) ==> r != []
    decreases |s|
  {
    if |s| > 0 && IsWhite(s[|s| - 1]) then
      var r := TrimEnd(s[..|s| - 1]);
      assert s[..|s| - 1][..|r|] == s[..|r|];
      assert forall i :: |r| <= i < |s| - 1 ==> s[i] == s[..|s| - 1][|r|..][i - |r|];
      r
    else s
  }

  /** `s.trim()`. */
  function Trim(s: string): (r: string)
    ensures |r| <= |s|
    ensures r == [] || (!IsWhite(r[0]) && !IsWhite(r[|r| - 1]))
  {
    TrimEnd(TrimStart(s))
  }

  /** Trimming removes only white space: every other character stays or goes with its occurrences. */
  lemma TrimKeepsNonWhite(s: string, c: char)
    requires !IsWhite(c)
    ensures c in Trim(s) <==> c in s
  {
    TrimStartKeepsNonWhite(s, c);
    TrimEndKeepsNonWhite(TrimStart(s), c);
  }

  lemma TrimStartKeepsNonWhite(s: string, c: char)
    requires !IsWhite(c)
    ensures c in TrimStart(s) <==> c in s
  {
    var a := TrimStart(s);
    var w := s[..|s| - |a|];
    assert s == w + a;
    assert c !in w by {
      assert AllWhite(w);
    }
  }

  lemma TrimEndKeepsNonWhite(s: string, c: char)
    requires !IsWhite(c)
    ensures c in TrimEnd(s) <==> c in s
  {
    var b := TrimEnd(s);
    var w := s[|b|..];
    assert s == b + w;
    assert c !in w by {
      assert AllWhite(w);
    }
  }

  /** Trimming is idempotent. */
  lemma TrimIdempotent(s: string)
    ensures Trim(Trim(s)) == Trim(s)
  {
    var t := Trim(s);
    if t != [] {
      TrimStartFixed(t);
      TrimEndFixed(t);
    }
  }

  lemma TrimStartFixed(s: string)
    requires s != [] && !IsWhite(s[0])
    ensures TrimStart(s) == s
  {
  }

  lemma TrimEndFixed(s: string)
    requires s != [] && !IsWhite(s[|s| - 1])
    ensures TrimEnd(s) == s
  {
  }

  /** A text with no white space at either end is its own trim. */
  lemma TrimFixed(s: string)
    requires s != [] && !IsWhite(s[0]) && !IsWhite(s[|s| - 1])
    ensures Trim(s) == s
  {
    TrimStartFixed(s);
    TrimEndFixed(s);
  }

  /** Leading white space does not change the trim. */
  lemma TrimLeadingWhite(s: string)
    requires s != [] && IsWhite(s[0])
    ensures Trim(s) == Trim(s[1..])
  {
  }

  /** Trailing white space after a non-white start does not change the trim. */
  lemma TrimTrailingWhite(s: string)
    requires s != [] && !IsWhite(s[0]) && IsWhite(s[|s| - 1])
    ensures Trim(s) == Trim(s[..|s| - 1])
  {
    TrimStartFixed(s);
    if |s| > 1 {
      TrimStartFixed(s[..|s| - 1]);
    }
  }

  /** The trim of a string is empty exactly when the string is all white space. */
  lemma TrimEmptyIff(s: string)
    ensures Trim(s) == [] <==> AllWhite(s)
  {
    var t := TrimStart(s);
    assert s[..|s|] == s;
    if t != [] {
      assert s[|s| - |t|] == t[0];
    }
  }

  /** A character above U+FFFF, which UTF-16 stores as a surrogate pair. */
  predicate IsAstral(c: char) {
    c as int > 0xFFFF
  }

  /**
   * `s.length`: JavaScript counts UTF-16 code units, so a character above
   * U+FFFF counts twice.
   */
  function CodeUnits(s: string): (n: nat)
    ensures |s| <= n <= 2 * |s|
    decreases |s|
  {
    if s == [] then 0 else (if IsAstral(s[0]) then 2 else 1) + CodeUnits(s[1..])
  }

  /** The length of a concatenation is the sum of the lengths. */
  lemma {:induction false} CodeUnitsConcat(a: string, b: string)
    ensures CodeUnits(a + b) == CodeUnits(a) + CodeUnits(b)
    decreases |a|
  {
    if a == [] {
      assert a + b == b;
    } else {
      assert (a + b)[0] == a[0] && (a + b)[1..] == a[1..] + b;
      CodeUnitsConcat(a[1..], b);
    }
  }

  /** Without characters above U+FFFF, `length` is the number of characters. */
  lemma {:induction false} CodeUnitsOfBasic(s: string)
    requires forall i :: 0 <= i < |s| ==> !IsAstral(s[i])
    ensures CodeUnits(s) == |s|
    decreases |s|
  {
    if s != [] {
      CodeUnitsOfBasic(s[1..]);
    }
  }

  /** `s.startsWith(p)`. */
  predicate StartsWith(s: string, p: string) {
    |p| <= |s| && s[..|p|] == p
  }

  /** `s.includes(p)` for a string `p`. */
  predicate Contains(s: string, p: string)
    decreases |s|
  {
    StartsWith(s, p) || (|s| > 0 && Contains(s[1..], p))
  }

  /** `s.substring(0, n)`: at most the first `n` characters. */
  function Take(s: string, n: nat): (r: string)
    ensures |r| == if |s| < n then |s| else n
    ensures r == s[..|r|]
  {
    if |s| <= n then s else s[..n]
  }

  function Min(a: nat, b: nat): nat { if a <= b then a else b }

  function Max(a: nat, b: nat): nat { if a <= b then b else a }

  /** `s.substring(a, b)`: both ends clamped to the string, swapped when `a > b`. */
  function Substring(s: string, a: nat, b: nat): (r: string)
    ensures |r| <= |s|
    ensures var lo := Min(Min(a, b), |s|); lo + |r| <= |s| && r == s[lo..lo + |r|]
  {
    var lo := Min(Min(a, b), |s|);
    var hi := Min(Max(a, b), |s|);
    s[lo..hi]
  }

  function Repeat(c: char, n: nat): (r: string)
    ensures |r| == n && forall i :: 0 <= i < n ==> r[i] == c
  {
    if n == 0 then "" else [c] + Repeat(c, n - 1)
  }

  /** `s.padStart(n, c)` for a one-character pad. */
  function PadStart(s: string, n: nat, c: char): (r: string)
    ensures |r| == if |s| < n then n else |s|
    ensures r[|r| - |s|..] == s
    ensures forall i :: 0 <= i < |r| - |s| ==> r[i] == c
  {
    if |s| >= n then s else Repeat(c, n - |s|) + s
  }

  /** Index of the first `c` in `s`, or `|s|` when there is none. */
  function FirstIndex(s: string, c: char): (i: nat)
    ensures i <= |s|
    ensures forall m :: 0 <= m < i ==> s[m] != c
    ensures i < |s| ==> s[i] == c
    ensures i == |s| <==> c !in s
  {
    if |s| == 0 then 0 else if s[0] == c then 0 else 1 + FirstIndex(s[1..], c)
  }

  /** `s.split(c)` for a one-character separator: never empty. */
  function Split(s: string, c: char): (parts: seq<string>)
    ensures |parts| >= 1
    ensures forall i :: 0 <= i < |parts| ==> c !in parts[i]
    decreases |s|
  {
    if |s| == 0 then [""]
    else
      var rest := Split(s[1..], c);
      if s[0] == c then [""] + rest else [[s[0]] + rest[0]] + rest[1..]
  }

  /** `parts.join(sep)`. */
  function Join(parts: seq<string>, sep: string): string
    decreases |parts|
  {
    if |parts| == 0 then ""
    else if |parts| == 1 then parts[0]
    else parts[0] + sep + Join(parts[1..], sep)
  }

  lemma {:induction false} SplitNoSeparator(s: string, c: char)
    requires c !in s
    ensures Split(s, c) == [s]
    decreases |s|
  {
    if |s| > 0 {
      SplitNoSeparator(s[1..], c);
      assert [s[0]] + s[1..] == s;
    }
  }

  /** Splitting at the first separator: the head is the text before it. */
  lemma {:induction false} SplitAtSeparator(a: string, b: string, c: char)
    requires c !in a
    ensures Split(a + [c] + b, c) == [a] + Split(b, c)
    decreases |a|
  {
    var s := a + [c] + b;
    if |a| == 0 {
      assert s[1..] == b;
    } else {
      assert s[1..] == a[1..] + [c] + b;
      SplitAtSeparator(a[1..], b, c);
      assert [a[0]] + a[1..] == a;
    }
  }

  /** Joining the pieces of a split gives back the text. */
  lemma {:induction false} JoinSplit(s: string, c: char)
    ensures Join(Split(s, c), [c]) == s
  {
    var i := FirstIndex(s, c);
    if i == |s| {
      SplitNoSeparator(s, c);
    } else {
      assert s == s[..i] + [c] + s[i + 1..];
      SplitAtSeparator(s[..i], s[i + 1..], c);
      JoinSplit(s[i + 1..], c);
    }
  }

  /** A join with one more piece at the end: the join so far, the separator, the piece. */
  lemma {:induction false} JoinSnoc(parts: seq<string>, e: string, sep: string)
    requires |parts| >= 1
    ensures Join(parts + [e], sep) == Join(parts, sep) + sep + e
    decreases |parts|
  {
    if |parts| == 1 {
      assert (parts + [e])[1..] == [e];
    } else {
      JoinSnoc(parts[1..], e, sep);
      assert (parts + [e])[1..] == parts[1..] + [e];
    }
  }

  /** A separator and a separator-free piece at the end of a text add that piece to its split. */
  lemma SplitSnoc(x: string, e: string, c: char)
    requires c !in e
    ensures Split(x + [c] + e, c) == Split(x, c) + [e]
  {
    var parts := Split(x, c);
    JoinSplit(x, c);
    JoinSnoc(parts, e, [c]);
    SplitJoin(parts + [e], c);
  }

  /** Splitting a join of separator-free pieces gives back the pieces. */
  lemma {:induction false} SplitJoin(parts: seq<string>, c: char)
    requires |parts| >= 1
    requires forall i :: 0 <= i < |parts| ==> c !in parts[i]
    ensures Split(Join(parts, [c]), c) == parts
    decreases |parts|
  {
    if |parts| == 1 {
      SplitNoSeparator(parts[0], c);
    } else {
      SplitJoin(parts[1..], c);
      SplitAtSeparator(parts[0], Join(parts[1..], [c]), c);
      assert [parts[0]] + parts[1..] == parts;
    }
  }

  /**
   * The `[key, ...rest] = s.split(c)` idiom: `key` is the text before the
   * first `c` and `rest.join(c)` the text after it; without a `c`, `rest`
   * is empty.
   */
  lemma SplitFirst(s: string, c: char)
    ensures Split(s, c)[0] == s[..FirstIndex(s, c)]
    ensures |Split(s, c)| > 1 <==> c in s
    ensures c in s ==> Join(Split(s, c)[1..], [c]) == s[FirstIndex(s, c) + 1..]
  {
    var i := FirstIndex(s, c);
    if i == |s| {
      SplitNoSeparator(s, c);
      assert s[..i] == s;
    } else {
      SplitAtFirst(s, c);
      JoinSplit(s[i + 1..], c);
      assert Split(s, c)[1..] == Split(s[i + 1..], c);
    }
  }

  /** A split is the text before the first separator followed by the split of the rest. */
  lemma SplitAtFirst(s: string, c: char)
    requires c in s
    ensures Split(s, c) == [s[..FirstIndex(s, c)]] + Split(s[FirstIndex(s, c) + 1..], c)
  {
    var i := FirstIndex(s, c);
    NoSeparatorBefore(s, c);
    Around(s, i);
    SplitAtSeparator(s[..i], s[i + 1..], c);
  }

  lemma NoSeparatorBefore(s: string, c: char)
    ensures c !in s[..FirstIndex(s, c)]
  {
    var a := s[..FirstIndex(s, c)];
    assert forall m :: 0 <= m < |a| ==> a[m] == s[m];
  }

  /** A text is its part before `i`, its character at `i` and its part after. */
  lemma Around(s: string, i: nat)
    requires i < |s|
    ensures s[..i] + [s[i]] + s[i + 1..] == s
  {
  }

  /**
   * `parts.pop()` after a split: the text after the last separator. It is a
   * suffix of the text holding no separator, and either the whole text or
   * preceded by a separator.
   */
  lemma {:induction false} SplitLast(s: string, c: char)
    ensures var parts := Split(s, c); var last := parts[|parts| - 1];
      |last| <= |s| && last == s[|s| - |last|..] && (|last| < |s| ==> s[|s| - |last| - 1] == c)
    decreases |s|
  {
    if |s| > 0 {
      SplitLast(s[1..], c);
      SplitLastStep(s, c);
    }
  }

  /** The step of `SplitLast` from the text without its first character to the whole text. */
  lemma SplitLastStep(s: string, c: char)
    requires |s| > 0
    requires var t := s[1..]; var rest := Split(t, c); var lastR := rest[|rest| - 1];
      |lastR| <= |t| && lastR == t[|t| - |lastR|..] && (|lastR| < |t| ==> t[|t| - |lastR| - 1] == c)
    ensures var parts := Split(s, c); var last := parts[|parts| - 1];
      |last| <= |s| && last == s[|s| - |last|..] && (|last| < |s| ==> s[|s| - |last| - 1] == c)
  {
    if s[0] != c && |Split(s[1..], c)| == 1 {
      WholeIsLast(s, c);
      assert s[0..] == s;
    } else {
      TailLastStep(s, c);
    }
  }

  /** The step when the last part of the whole is the last part of the tail. */
  lemma TailLastStep(s: string, c: char)
    requires |s| > 0
    requires var t := s[1..]; var rest := Split(t, c); var lastR := rest[|rest| - 1];
      |lastR| <= |t| && lastR == t[|t| - |lastR|..] && (|lastR| < |t| ==> t[|t| - |lastR| - 1] == c)
    requires s[0] == c || |Split(s[1..], c)| > 1
    ensures var parts := Split(s, c); var last := parts[|parts| - 1];
      |last| <= |s| && last == s[|s| - |last|..] && (|last| < |s| ==> s[|s| - |last| - 1] == c)
  {
    var t := s[1..];
    var rest := Split(t, c);
    var lastR := rest[|rest| - 1];
    LastOfSplit(s, c);
    if s[0] != c {
      SplitHasSeparator(t, c);
      ProperSuffix(t, lastR, c);
    }
    SuffixOfTail(s, lastR);
  }

  /** Without a separator after a first character that is not one, the last part is the whole text. */
  lemma WholeIsLast(s: string, c: char)
    requires |s| > 0 && s[0] != c && |Split(s[1..], c)| == 1
    ensures var parts := Split(s, c); parts[|parts| - 1] == s
  {
    var t := s[1..];
    var rest := Split(t, c);
    JoinSplit(t, c);
    assert rest[0] == t;
    LastOfSplit(s, c);
    assert [s[0]] + t == s;
  }

  /** The last part of a split, from the split of the text without its first character. */
  lemma LastOfSplit(s: string, c: char)
    requires |s| > 0
    ensures var parts, rest := Split(s, c), Split(s[1..], c);
      parts[|parts| - 1] == if s[0] != c && |rest| == 1 then [s[0]] + rest[0] else rest[|rest| - 1]
  {
  }

  /** A suffix of the tail is a suffix of the text, preceded by what preceded it there, or by the first character. */
  lemma SuffixOfTail(s: string, x: string)
    requires |s| > 0 && |x| <= |s| - 1 && x == s[1..][|s| - 1 - |x|..]
    ensures x == s[|s| - |x|..]
    ensures |x| < |s| - 1 ==> s[|s| - |x| - 1] == s[1..][|s| - 1 - |x| - 1]
    ensures |x| == |s| - 1 ==> s[|s| - |x| - 1] == s[0]
  {
  }

  /** A suffix without `c` of a text holding `c` is shorter than the text. */
  lemma ProperSuffix(t: string, x: string, c: char)
    requires c in t && c !in x
    requires |x| <= |t| && x == t[|t| - |x|..]
    ensures |x| < |t|
  {
  }

  /** A split into more than one part comes from a text holding the separator. */
  lemma SplitHasSeparator(s: string, c: char)
    requires |Split(s, c)| > 1
    ensures c in s
  {
    var parts := Split(s, c);
    JoinSplit(s, c);
    assert Join(parts, [c]) == parts[0] + [c] + Join(parts[1..], [c]);
    assert s[|parts[0]|] == c;
  }

  predicate IsDigit(c: char) {
    '0' <= c <= '9'
  }

  predicate AllDigits(t: string) {
    forall i :: 0 <= i < |t| ==> IsDigit(t[i])
  }

  function DigitValue(c: char): (d: nat)
    requires IsDigit(c)
    ensures d < 10 && DigitChar(d) == c
  {
    c as int - '0' as int
  }

  /** `Number(digits)` for a text of decimal digits. */
  function DecimalValue(s: string): nat
    requires AllDigits(s)
    decreases |s|
  {
    if |s| == 0 then 0 else 10 * DecimalValue(s[..|s| - 1]) + DigitValue(s[|s| - 1])
  }

  /** Decimal digits of a natural number, as `String(n)` renders it. */
  function NatToString(n: nat): (r: string)
    ensures |r| >= 1
    ensures forall i :: 0 <= i < |r| ==> '0' <= r[i] <= '9'
    decreases n
  {
    if n < 10 then [DigitChar(n)] else NatToString(n / 10) + [DigitChar(n % 10)]
  }

  /** `String(n)` for an integer: a minus sign before the digits of a negative one. */
  function IntToString(n: int): (r: string)
    ensures |r| >= 1
    ensures n < 0 <==> r[0] == '-'
  {
    if n < 0 then "-" + NatToString(-n) else NatToString(n)
  }

  /** `String(n)` reads back as `n`. */
  lemma {:induction false} NatToStringValue(n: nat)
    ensures AllDigits(NatToString(n)) && DecimalValue(NatToString(n)) == n
    decreases n
  {
    var s := NatToString(n);
    if n < 10 {
      assert s[..0] == [];
    } else {
      NatToStringValue(n / 10);
      assert s[..|s| - 1] == NatToString(n / 10);
    }
  }

  /** The decimal form of an integer holds digits and a leading minus sign, nothing else. */
  lemma IntToStringChars(n: int, c: char)
    requires c != '-' && !IsDigit(c)
    ensures c !in IntToString(n)
  {
    var r := IntToString(n);
    if n < 0 {
      assert r[1..] == NatToString(-n);
      assert forall i :: 1 <= i < |r| ==> r[i] == r[1..][i - 1];
    }
  }

  /** `String(n)` for an integer reads back as `n`: its digits, after the minus sign of a negative one. */
  lemma IntToStringValue(n: int)
    ensures n >= 0 ==> AllDigits(IntToString(n)) && DecimalValue(IntToString(n)) == n
    ensures n < 0 ==> IntToString(n)[0] == '-'
    ensures n < 0 ==> AllDigits(IntToString(n)[1..]) && DecimalValue(IntToString(n)[1..]) == -n
  {
    if n < 0 {
      NatToStringValue(-n);
      assert IntToString(n)[1..] == NatToString(-n);
    } else {
      NatToStringValue(n);
    }
  }

  function DigitChar(d: nat): (c: char)
    requires d < 10
    ensures '0' <= c <= '9'
  {
    ('0' as int + d) as char
  }

  /**
   * Code-point order on strings, used in place of `localeCompare` and the
   * default `Array.prototype.sort` order: `a` is a prefix of `b`, or the
   * first difference is smaller in `a`.
   */
  predicate LexLe(a: string, b: string)
    decreases |a|
  {
    |a| == 0 || (|b| > 0 && (a[0] < b[0] || (a[0] == b[0] && LexLe(a[1..], b[1..]))))
  }

  lemma {:induction false} LexLeTotal(a: string, b: string)
    ensures LexLe(a, b) || LexLe(b, a)
    decreases |a|
  {
    if |a| > 0 && |b| > 0 && a[0] == b[0] {
      LexLeTotal(a[1..], b[1..]);
    }
  }

  lemma {:induction false} LexLeTransitive(a: string, b: string, c: string)
    requires LexLe(a, b) && LexLe(b, c)
    ensures LexLe(a, c)
    decreases |a|
  {
    if |a| > 0 && a[0] == b[0] && b[0] == c[0] {
      LexLeTransitive(a[1..], b[1..], c[1..]);
    }
  }

  lemma {:induction false} LexLeAntisymmetric(a: string, b: string)
    requires LexLe(a, b) && LexLe(b, a)
    ensures a == b
    decreases |a|
  {
    if |a| > 0 {
      LexLeAntisymmetric(a[1..], b[1..]);
      assert a == [a[0]] + a[1..] && b == [b[0]] + b[1..];
    }
  }
}
