/**
 * Character classes, lower-casing, substring search and decimal rendering,
 * as the honeypot's Python code uses them on `str` values.
 */
module Text {

  predicate IsDigit(c: char) { '0' <= c <= '9' }
  predicate IsUpper(c: char) { 'A' <= c <= 'Z' }
  predicate IsLowerLetter(c: char) { 'a' <= c <= 'z' }
  predicate IsLetter(c: char) { IsUpper(c) || IsLowerLetter(c) }

  /** Word characters of `\w` and `\b` (ASCII part; see README). */
  predicate IsWordChar(c: char) { IsLetter(c) || IsDigit(c) || c == '_' }

  /** Python's `\s` on `str`: the characters `str.isspace` accepts. */
  predicate IsSpace(c: char) {
    || '\t' <= c <= '\r'
    || '\U{1C}' <= c <= ' '
    || c == '\U{85}' || c == '\U{A0}' || c == '\U{1680}'
    || '\U{2000}' <= c <= '\U{200A}'
    || c == '\U{2028}' || c == '\U{2029}' || c == '\U{202F}'
    || c == '\U{205F}' || c == '\U{3000}'
  }

  predicate AllDigits(s: string) {
    forall k :: 0 <= k < |s| ==> IsDigit(s[k])
  }

  /** Python's `str.lower` on one character, as far as it can produce ASCII:
      capitals fold, KELVIN SIGN becomes `k`, and LATIN CAPITAL LETTER I WITH
      DOT ABOVE becomes `i` followed by COMBINING DOT ABOVE. Every other
      character is kept; Python would map some of them to other non-ASCII
      characters, which changes no answer about an ASCII word occurring. */
  function LowerChar(c: char): (r: string)
    ensures 1 <= |r| <= 2
    ensures forall k :: 0 <= k < |r| ==> !IsUpper(r[k])
  {
    if IsUpper(c) then [(c as int + 32) as char]
    else if c == '\U{212A}' then "k"
    else if c == '\U{0130}' then "i\U{0307}"
    else [c]
  }

  /** `message.lower()`: folds every character in order. */
  function Lower(s: string): (r: string)
    ensures |r| >= |s|
    ensures forall k :: 0 <= k < |r| ==> !IsUpper(r[k])
  {
    if |s| == 0 then "" else LowerChar(s[0]) + Lower(s[1..])
  }

  /** The modelled lower-casing distributes over concatenation. Python's own
      `str.lower` does not quite: its capital sigma depends on the letters
      around it, and the model keeps that character unchanged. */
  lemma {:induction false} LowerAppend(a: string, b: string)
    ensures Lower(a + b) == Lower(a) + Lower(b)
    decreases |a|
  {
    if |a| == 0 {
      assert a + b == b;
    } else {
      assert (a + b)[1..] == a[1..] + b;
      LowerAppend(a[1..], b);
    }
  }

  /** Away from the Kelvin sign and the dotted capital I, lower-casing keeps
      the length and replaces each capital A-Z by its small letter, keeping
      every other character. */
  lemma {:induction false} LowerMapsEachChar(s: string)
    requires forall k :: 0 <= k < |s| ==> s[k] != '\U{212A}' && s[k] != '\U{0130}'
    ensures |Lower(s)| == |s|
    ensures forall k :: 0 <= k < |s| ==>
              Lower(s)[k] == if IsUpper(s[k]) then (s[k] as int + 32) as char else s[k]
    decreases |s|
  {
    if |s| > 0 {
      LowerMapsEachChar(s[1..]);
      forall k | 0 <= k < |s|
        ensures Lower(s)[k] == if IsUpper(s[k]) then (s[k] as int + 32) as char else s[k]
      {
        if k > 0 {
          assert s[1..][k - 1] == s[k];
        }
      }
    }
  }

  /** A character the modelled lower-casing leaves as it is. */
  predicate Plain(c: char) {
    !IsUpper(c) && c != '\U{212A}' && c != '\U{0130}'
  }

  /** Lower-casing leaves a text unchanged exactly when every character of
      it is already plain. */
  lemma {:induction false} LowerFixesExactlyPlain(s: string)
    ensures Lower(s) == s <==> forall k :: 0 <= k < |s| ==> Plain(s[k])
    decreases |s|
  {
    if |s| > 0 {
      LowerFixesExactlyPlain(s[1..]);
      var head, tail := LowerChar(s[0]), Lower(s[1..]);
      assert Lower(s) == head + tail;
      if Plain(s[0]) {
        assert head == [s[0]];
        assert s == [s[0]] + s[1..];
        assert (forall k :: 0 <= k < |s| ==> Plain(s[k])) <==> (forall k :: 0 <= k < |s| - 1 ==> Plain(s[1..][k]));
      } else {
        assert Lower(s) != s;
      }
    }
  }

  /** `p` occurs in `s` at position `i`. */
  predicate OccursAt(s: string, p: string, i: int) {
    0 <= i && i + |p| <= |s| && s[i..i + |p|] == p
  }

  /** A slice occurs where it was cut from. */
  lemma SliceOccurs(s: string, a: nat, b: nat)
    requires a <= b <= |s|
    ensures OccursAt(s, s[a..b], a)
  {
  }

  /** Python's `p in s` (and `re.search(p, s)` for a pattern with no
      metacharacters), searching the positions from `from` on. */
  function ContainsFrom(s: string, p: string, from: nat): (r: bool)
    ensures r <==> exists i :: from <= i && OccursAt(s, p, i)
    decreases |s| - from
  {
    if from + |p| > |s| then false
    else if s[from..from + |p|] == p then assert OccursAt(s, p, from); true
    else ContainsFrom(s, p, from + 1)
  }

  function Contains(s: string, p: string): (r: bool)
    ensures r <==> exists i :: OccursAt(s, p, i)
  {
    ContainsFrom(s, p, 0)
  }

  /** Some word of `words` occurs in `s`: Python's `any(w in s for w in words)`. */
  predicate AnyIn(s: string, words: seq<string>) {
    exists k :: 0 <= k < |words| && Contains(s, words[k])
  }

  function DigitChar(d: nat): (c: char)
    requires d < 10
    ensures IsDigit(c)
  {
    ('0' as int + d) as char
  }

  function DigitValue(c: char): nat
    requires IsDigit(c)
  {
    c as int - '0' as int
  }

  /** Python's `str(n)` for a non-negative integer, inside an f-string. */
  function NatToString(n: nat): (r: string)
    ensures |r| >= 1 && AllDigits(r)
    ensures r[0] == '0' ==> n == 0 && |r| == 1
    decreases n
  {
    if n < 10 then [DigitChar(n)] else NatToString(n / 10) + [DigitChar(n % 10)]
  }

  /** The number a string of decimal digits denotes. */
  function DecimalValue(s: string): nat
    requires AllDigits(s)
    decreases |s|
  {
    if |s| == 0 then 0 else DecimalValue(s[..|s| - 1]) * 10 + DigitValue(s[|s| - 1])
  }

  /** Rendering a count and reading it back gives the count. */
  lemma {:induction false} DecimalRoundTrip(n: nat)
    ensures DecimalValue(NatToString(n)) == n
    decreases n
  {
    if n >= 10 {
      var r := NatToString(n);
      assert r[..|r| - 1] == NatToString(n / 10);
      DecimalRoundTrip(n / 10);
    }
  }

  /** The length of the run of digits a text starts with. */
  function LeadingDigits(s: string): nat
    decreases |s|
  {
    if |s| > 0 && IsDigit(s[0]) then 1 + LeadingDigits(s[1..]) else 0
  }

  /** A number followed by a space: the leading digits are the number's. */
  lemma {:induction false} LeadingDigitsUpToSpace(x: string, r: string)
    requires AllDigits(x) && |r| > 0 && r[0] == ' '
    ensures LeadingDigits(x + r) == |x|
    decreases |x|
  {
    if |x| == 0 {
      assert x + r == r;
    } else {
      assert (x + r)[1..] == x[1..] + r;
      LeadingDigitsUpToSpace(x[1..], r);
    }
  }

  /** Two texts that agree, each a run of digits followed by a space, have
      the same run: the space marks where the number ends. */
  lemma DigitsUpToSpace(x: string, r: string, y: string, q: string)
    requires AllDigits(x) && AllDigits(y)
    requires |r| > 0 && r[0] == ' ' && |q| > 0 && q[0] == ' '
    requires x + r == y + q
    ensures x == y
  {
    LeadingDigitsUpToSpace(x, r);
    LeadingDigitsUpToSpace(y, q);
    assert x == (x + r)[..|x|] && y == (y + q)[..|y|];
  }

  /** Distinct counts render as distinct strings. */
  lemma NatToStringInjective(m: nat, n: nat)
    requires NatToString(m) == NatToString(n)
    ensures m == n
  {
    DecimalRoundTrip(m);
    DecimalRoundTrip(n);
  }

  /** Number of decimal digits in a string. */
  function DigitCount(s: string): (n: nat)
    ensures n <= |s|
  {
    if |s| == 0 then 0 else (if IsDigit(s[0]) then 1 else 0) + DigitCount(s[1..])
  }

  lemma {:induction false} DigitCountAppend(a: string, b: string)
    ensures DigitCount(a + b) == DigitCount(a) + DigitCount(b)
    decreases |a|
  {
    if |a| > 0 {
      assert (a + b)[1..] == a[1..] + b;
      DigitCountAppend(a[1..], b);
    } else {
      assert a + b == b;
    }
  }

  lemma {:induction false} DigitCountAll(s: string)
    requires AllDigits(s)
    ensures DigitCount(s) == |s|
    decreases |s|
  {
    if |s| > 0 {
      DigitCountAll(s[1..]);
    }
  }

  /** A property of every character in a range holds of every character of
      the slice. */
  lemma SliceChars(t: string, a: nat, e: nat, P: char -> bool)
    requires a <= e <= |t|
    requires forall k :: a <= k < e ==> P(t[k])
    ensures forall k :: 0 <= k < |t[a..e]| ==> P(t[a..e][k])
  {
    forall k | 0 <= k < |t[a..e]|
      ensures P(t[a..e][k])
    {
      assert t[a..e][k] == t[a + k];
    }
  }
}
