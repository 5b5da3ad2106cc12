/** The JavaScript string operations the page scripts rely on: `trim`,
    `toLowerCase`/`toUpperCase` (on ASCII letters), `includes`, `split`,
    `join`, `replace`, and the decimal rendering of integers that template
    strings perform. */
module Text {

  /** The characters `String.prototype.trim` removes: ECMAScript
      WhiteSpace and LineTerminator code points. */
  predicate IsWhitespace(c: char) {
    || c == '\t' || c == '\n' || c == '\U{000B}' || c == '\U{000C}' || c == '\r'
    || c == ' ' || c == '\U{00A0}' || c == '\U{1680}'
    || ('\U{2000}' <= c <= '\U{200A}')
    || c == '\U{2028}' || c == '\U{2029}' || c == '\U{202F}' || c == '\U{205F}'
    || c == '\U{3000}' || c == '\U{FEFF}'
  }

  predicate AllWhitespace(s: string) {
    forall i :: 0 <= i < |s| ==> IsWhitespace(s[i])
  }

  predicate IsDigit(c: char) {
    '0' <= c <= '9'
  }

  /** A character of the Basic Multilingual Plane: one UTF-16 code unit. */
  predicate InBmp(c: char) {
    c as int <= 0xFFFF
  }

  /** The UTF-16 code units a character takes: two (a surrogate pair)
      above U+FFFF, one otherwise. */
  function CodeUnits(c: char): nat {
    if InBmp(c) then 1 else 2
  }

  /** `s.length`: JavaScript counts UTF-16 code units, not characters. */
  function JsLength(s: string): (n: nat)
    ensures |s| <= n <= 2 * |s|
    ensures n == |s| <==> forall i :: 0 <= i < |s| ==> InBmp(s[i])
  {
    if s == [] then 0
    else
      var n := JsLength(s[1..]);
      assert forall i :: 1 <= i < |s| ==> s[i] == s[1..][i - 1];
      assert (forall i :: 0 <= i < |s[1..]| ==> InBmp(s[1..][i])) ==> forall i :: 1 <= i < |s| ==> InBmp(s[i]);
      CodeUnits(s[0]) + n
  }

  /** The length of a concatenation is the sum of the lengths. */
  lemma {:induction false} JsLengthConcat(a: string, b: string)
    ensures JsLength(a + b) == JsLength(a) + JsLength(b)
  {
    if a != [] {
      assert (a + b)[0] == a[0] && (a + b)[1..] == a[1..] + b;
      JsLengthConcat(a[1..], b);
    } else {
      assert a + b == b;
    }
  }

  /** Drops the leading whitespace. */
  function TrimStart(s: string): (r: string)
    ensures |r| <= |s| && r == s[|s| - |r|..]
    ensures forall i :: 0 <= i < |s| - |r| ==> IsWhitespace(s[i])
    ensures r == [] || !IsWhitespace(r[0])
  {
    if |s| > 0 && IsWhitespace(s[0]) then
      var r := TrimStart(s[1..]);
      assert forall i :: 1 <= i < |s| - |r| ==> s[i] == s[1..][i - 1];
      r
    else s
  }

  /** Drops the trailing whitespace. */
  function TrimEnd(s: string): (r: string)
    ensures |r| <= |s| && r == s[..|r|]
    ensures AllWhitespace(s[|r|..])
    ensures r == [] || !IsWhitespace(r[|r| - 1])
  {
    if |s| > 0 && IsWhitespace(s[|s| - 1]) then
      var r := TrimEnd(s[..|s| - 1]);
      assert forall i :: |r| <= i < |s| - 1 ==> s[i] == s[..|s| - 1][i];
      r
    else s
  }

  /** `String.prototype.trim`. */
  function Trim(s: string): (r: string)
    ensures |r| <= |s|
    ensures r == [] || (!IsWhitespace(r[0]) && !IsWhitespace(r[|r| - 1]))
  {
    TrimEnd(TrimStart(s))
  }

  lemma TrimStartAllWhitespace(w: string)
    requires AllWhitespace(w)
    ensures TrimStart(w) == []
  {
  }

  lemma {:induction false} TrimStartSkipsPadding(w: string, s: string)
    requires AllWhitespace(w)
    ensures TrimStart(w + s) == TrimStart(s)
  {
    if w == [] {
      assert w + s == s;
    } else {
      assert (w + s)[0] == w[0];
      assert (w + s)[1..] == w[1..] + s;
      TrimStartSkipsPadding(w[1..], s);
    }
  }

  lemma {:induction false} TrimEndSkipsPadding(s: string, w: string)
    requires AllWhitespace(w)
    ensures TrimEnd(s + w) == TrimEnd(s)
  {
    if w == [] {
      assert s + w == s;
    } else {
      var n := |s + w|;
      assert (s + w)[n - 1] == w[|w| - 1];
      assert (s + w)[..n - 1] == s + w[..|w| - 1];
      TrimEndSkipsPadding(s, w[..|w| - 1]);
    }
  }

  lemma {:induction false} TrimStartThroughSuffix(s: string, w: string)
    requires AllWhitespace(w)
    ensures TrimStart(s + w) == if AllWhitespace(s) then [] else TrimStart(s) + w
  {
    if s == [] {
      assert s + w == w;
      TrimStartAllWhitespace(w);
    } else if IsWhitespace(s[0]) {
      assert (s + w)[0] == s[0];
      assert (s + w)[1..] == s[1..] + w;
      TrimStartThroughSuffix(s[1..], w);
      assert AllWhitespace(s) <==> AllWhitespace(s[1..]) by {
        assert forall i :: 1 <= i < |s| ==> s[i] == s[1..][i - 1];
      }
    } else {
      assert (s + w)[0] == s[0];
    }
  }

  /** Whitespace around a string never changes what `trim` returns. */
  lemma TrimIgnoresPadding(w1: string, s: string, w2: string)
    requires AllWhitespace(w1) && AllWhitespace(w2)
    ensures Trim(w1 + s + w2) == Trim(s)
  {
    assert w1 + s + w2 == w1 + (s + w2);
    TrimStartSkipsPadding(w1, s + w2);
    TrimStartThroughSuffix(s, w2);
    if AllWhitespace(s) {
      TrimStartAllWhitespace(s);
    } else {
      TrimEndSkipsPadding(TrimStart(s), w2);
    }
  }

  /** A string that neither starts nor ends with whitespace is unchanged by `trim`. */
  lemma TrimUnpadded(s: string)
    requires s != [] && !IsWhitespace(s[0]) && !IsWhitespace(s[|s| - 1])
    ensures Trim(s) == s
  {
    assert TrimStart(s) == s;
  }

  function LowerChar(c: char): char {
    if 'A' <= c <= 'Z' then (c as int + 32) as char else c
  }

  function UpperChar(c: char): char {
    if 'a' <= c <= 'z' then (c as int - 32) as char else c
  }

  /** `toLowerCase`, on ASCII letters. */
  function Lower(s: string): (r: string)
    ensures |r| == |s|
    ensures forall i :: 0 <= i < |s| ==> r[i] == LowerChar(s[i])
  {
    seq(|s|, i requires 0 <= i < |s| => LowerChar(s[i]))
  }

  /** `toUpperCase`, on ASCII letters. */
  function Upper(s: string): (r: string)
    ensures |r| == |s|
    ensures forall i :: 0 <= i < |s| ==> r[i] == UpperChar(s[i])
  {
    seq(|s|, i requires 0 <= i < |s| => UpperChar(s[i]))
  }

  /** Trimming keeps only characters of the string: a property every
      character has holds of the trimmed string too. */
  lemma TrimKeeps(s: string, p: char -> bool)
    requires forall i :: 0 <= i < |s| ==> p(s[i])
    ensures forall i :: 0 <= i < |Trim(s)| ==> p(Trim(s)[i])
  {
    var t := TrimStart(s);
    SuffixKeeps(s, |s| - |t|, p);
    var k := TrimEnd(t);
    PrefixKeeps(t, |k|, p);
  }

  lemma SuffixKeeps(s: string, a: int, p: char -> bool)
    requires 0 <= a <= |s|
    requires forall i :: 0 <= i < |s| ==> p(s[i])
    ensures forall i :: 0 <= i < |s| - a ==> p(s[a..][i])
  {
    assert forall i :: 0 <= i < |s| - a ==> s[a..][i] == s[a + i];
  }

  lemma PrefixKeeps(s: string, b: int, p: char -> bool)
    requires 0 <= b <= |s|
    requires forall i :: 0 <= i < |s| ==> p(s[i])
    ensures forall i :: 0 <= i < b ==> p(s[..b][i])
  {
    assert forall i :: 0 <= i < b ==> s[..b][i] == s[i];
  }

  /** A trimmed lower-cased string has no capitals. */
  lemma TrimmedLowerHasNoCapitals(s: string)
    ensures var k := Trim(Lower(s));
            forall i :: 0 <= i < |k| ==> !('A' <= k[i] <= 'Z')
  {
    var l := Lower(s);
    forall i | 0 <= i < |l| ensures !('A' <= l[i] <= 'Z') {
      LowerCharNotCapital(s[i]);
    }
    TrimKeeps(l, c => !('A' <= c <= 'Z'));
  }

  /** Lower-casing a trimmed string leaves it trimmed and free of capitals. */
  lemma LowerKeepsTrimmed(t: string)
    requires t == [] || (!IsWhitespace(t[0]) && !IsWhitespace(t[|t| - 1]))
    ensures var l := Lower(t);
            && (l == [] || (!IsWhitespace(l[0]) && !IsWhitespace(l[|l| - 1])))
            && forall i :: 0 <= i < |l| ==> !('A' <= l[i] <= 'Z')
  {
    var l := Lower(t);
    if t != [] {
      LowerCharKeepsWhitespace(t[0]);
      LowerCharKeepsWhitespace(t[|t| - 1]);
    }
    forall i | 0 <= i < |l| ensures !('A' <= l[i] <= 'Z') {
      LowerCharNotCapital(t[i]);
    }
  }

  lemma LowerCharKeepsWhitespace(c: char)
    ensures IsWhitespace(LowerChar(c)) == IsWhitespace(c)
  {
  }

  lemma LowerCharNotCapital(c: char)
    ensures !('A' <= LowerChar(c) <= 'Z')
  {
  }

  lemma LowerConcat(a: string, b: string)
    ensures Lower(a + b) == Lower(a) + Lower(b)
  {
    assert forall i :: 0 <= i < |a + b| ==> Lower(a + b)[i] == (Lower(a) + Lower(b))[i];
  }

  /** A string with no upper-case ASCII letter is its own lower case. */
  lemma LowerWithoutCapitals(s: string)
    requires forall i :: 0 <= i < |s| ==> !('A' <= s[i] <= 'Z')
    ensures Lower(s) == s
  {
  }

  lemma LowerKeepsWhitespace(w: string)
    requires AllWhitespace(w)
    ensures Lower(w) == w
  {
  }

  /** `t` occurs in `s` starting at index `i`. */
  predicate OccursAt(s: string, t: string, i: int) {
    0 <= i <= |s| - |t| && s[i..i + |t|] == t
  }

  /** `s.includes(t)`. */
  predicate Contains(s: string, t: string) {
    exists i :: 0 <= i <= |s| - |t| && OccursAt(s, t, i)
  }

  lemma ContainsEmpty(s: string)
    ensures Contains(s, "")
  {
    assert OccursAt(s, "", 0);
  }

  /** `s.endsWith(t)`. */
  predicate EndsWith(s: string, t: string) {
    |t| <= |s| && s[|s| - |t|..] == t
  }

  /** `parts.join(sep)`. */
  function Join(parts: seq<string>, sep: string): string {
    if parts == [] then ""
    else if |parts| == 1 then parts[0]
    else parts[0] + sep + Join(parts[1..], sep)
  }

  /** The part before the first `sep`, which is `s.split(sep)[0]`. */
  function Before(s: string, sep: char): (r: string)
    ensures sep !in r
    ensures |r| <= |s| && r == s[..|r|]
    ensures r == s || s[|r|] == sep
  {
    if s == [] then []
    else if s[0] == sep then []
    else
      var rest := Before(s[1..], sep);
      assert s[1..][..|rest|] == s[1..|rest| + 1];
      [s[0]] + rest
  }

  /** `s.replace(a, b)` with a one-character pattern: only the first
      occurrence is replaced. */
  function ReplaceFirst(s: string, a: char, b: char): (r: string)
    ensures |r| == |s|
  {
    if s == [] then []
    else if s[0] == a then [b] + s[1..]
    else [s[0]] + ReplaceFirst(s[1..], a, b)
  }

  /** Without an occurrence, `replace` gives the string back. */
  lemma {:induction false} ReplaceFirstAbsent(s: string, a: char, b: char)
    requires a !in s
    ensures ReplaceFirst(s, a, b) == s
  {
    if s != [] {
      assert a !in s[1..];
      ReplaceFirstAbsent(s[1..], a, b);
    }
  }

  /** `replace` changes the first occurrence, at `k`, and nothing else. */
  lemma {:induction false} ReplaceFirstAt(s: string, a: char, b: char, k: int)
    requires 0 <= k < |s| && s[k] == a && a !in s[..k]
    ensures ReplaceFirst(s, a, b) == s[..k] + [b] + s[k + 1..]
  {
    if k > 0 {
      assert s[0] != a by {
        assert s[0] == s[..k][0];
      }
      assert s[1..][..k - 1] == s[1..k];
      assert a !in s[1..][..k - 1];
      ReplaceFirstAt(s[1..], a, b, k - 1);
      assert s[..k] == [s[0]] + s[1..][..k - 1];
      assert s[1..][k - 1 + 1..] == s[k + 1..];
    }
  }

  /** `s.replaceAll(a, b)` with one-character pattern and replacement. */
  function ReplaceAll(s: string, a: char, b: char): (r: string)
    ensures |r| == |s|
    ensures forall i :: 0 <= i < |s| ==> r[i] == if s[i] == a then b else s[i]
  {
    seq(|s|, i requires 0 <= i < |s| => if s[i] == a then b else s[i])
  }

  function DigitChar(d: int): (c: char)
    requires 0 <= d < 10
    ensures IsDigit(c)
  {
    ('0' as int + d) as char
  }

  function DigitValue(c: char): int {
    if IsDigit(c) then c as int - '0' as int else 0
  }

  /** The decimal numeral JavaScript prints for a non-negative integer. */
  function NatToString(n: nat): (r: string)
    ensures |r| >= 1
    ensures forall i :: 0 <= i < |r| ==> IsDigit(r[i])
    ensures n > 0 ==> r[0] != '0'
  {
    if n < 10 then [DigitChar(n)] else NatToString(n / 10) + [DigitChar(n % 10)]
  }

  /** The value of a string of decimal digits. */
  function ParseDigits(s: string): nat {
    if s == [] then 0
    else ParseDigits(s[..|s| - 1]) * 10 + (if IsDigit(s[|s| - 1]) then DigitValue(s[|s| - 1]) else 0)
  }

  /** Reading back a printed numeral gives the number. */
  lemma {:induction false} NatToStringRoundTrip(n: nat)
    ensures ParseDigits(NatToString(n)) == n
  {
    if n >= 10 {
      var prefix := NatToString(n / 10);
      var s := prefix + [DigitChar(n % 10)];
      assert s[..|s| - 1] == prefix;
      NatToStringRoundTrip(n / 10);
    }
  }

  /** `${i}` for an integer. */
  function IntToString(i: int): (r: string)
    ensures |r| >= 1 && (IsDigit(r[0]) || r[0] == '-')
  {
    if i < 0 then "-" + NatToString(-i) else NatToString(i)
  }
}
