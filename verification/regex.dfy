/**
 * The five regular expressions the honeypot uses to find artifacts, each as a
 * hand-written matcher that follows Python's `re` engine on that one
 * expression (leftmost alternative first, greedy repetition, backtracking),
 * and `findall` as a left-to-right scanner over a message.
 */
module Regex {
  import opened Text
  import opened Wrappers

  /** The artifact patterns of app.py: a phone number, a UPI handle, a link,
      a bare account number, and an IFSC branch code. */
  datatype Pattern = Phone | Upi | Url | Account | Ifsc

  /** End of the longest run of characters of a class starting at `i`. */
  function RunEnd(t: string, i: nat, inClass: char -> bool): (e: nat)
    requires i <= |t|
    ensures i <= e <= |t|
    ensures forall k :: i <= k < e ==> inClass(t[k])
    ensures e == |t| || !inClass(t[e])
    decreases |t| - i
  {
    if i < |t| && inClass(t[i]) then RunEnd(t, i + 1, inClass) else i
  }

  predicate WordAt(t: string, p: int) {
    0 <= p < |t| && IsWordChar(t[p])
  }

  /** `\b` at position `p`: a word character on exactly one side. */
  predicate Boundary(t: string, p: int) {
    WordAt(t, p - 1) != WordAt(t, p)
  }

  /** `n` digits start at `i`. */
  predicate DigitsAt(t: string, i: nat, n: nat) {
    i + n <= |t| && forall k :: i <= k < i + n ==> IsDigit(t[k])
  }

  // ---------------------------------------------------------------- phone

  /** The class `[-.\s]` between digit groups. */
  predicate IsPhoneSep(c: char) {
    c == '-' || c == '.' || IsSpace(c)
  }

  /** A character a phone match may hold. */
  predicate IsPhoneChar(c: char) {
    IsDigit(c) || c == '+' || IsPhoneSep(c)
  }

  /** An optional separator, taken greedily. Not taking a separator that is
      there never helps, since a digit group would then have to start on it. */
  function SkipSep(t: string, j: nat): (r: nat)
    requires j <= |t|
    ensures j <= r <= |t| && r <= j + 1
  {
    if j < |t| && IsPhoneSep(t[j]) then j + 1 else j
  }

  /** Second alternative: `\d{3}[-.\s]?\d{3}[-.\s]?\d{4}`. */
  function MatchGroupedPhoneAt(t: string, i: nat): (r: Option<nat>)
    requires i <= |t|
    ensures r.Some? ==> i < r.value <= |t|
  {
    if !DigitsAt(t, i, 3) then None
    else
      var j := SkipSep(t, i + 3);
      if !DigitsAt(t, j, 3) then None
      else
        var k := SkipSep(t, j + 3);
        if !DigitsAt(t, k, 4) then None else Some(k + 4)
  }

  /** `\+?\d{10,}|\d{3}[-.\s]?\d{3}[-.\s]?\d{4}` at `i`: an optional plus and
      a run of at least ten digits (the whole run), else the grouped form.
      When a plus is followed by too few digits, dropping the plus cannot
      help the first alternative and the second cannot start on a plus. */
  function MatchPhoneAt(t: string, i: nat): (r: Option<nat>)
    requires i <= |t|
    ensures r.Some? ==> i < r.value <= |t|
  {
    var a := if i < |t| && t[i] == '+' then i + 1 else i;
    var e := RunEnd(t, a, IsDigit);
    if e - a >= 10 then Some(e) else MatchGroupedPhoneAt(t, i)
  }

  // ---------------------------------------------------------------- UPI

  /** The class `[a-zA-Z0-9._-]` of a handle's local part. */
  predicate IsUpiLocalChar(c: char) {
    IsLetter(c) || IsDigit(c) || c == '.' || c == '_' || c == '-'
  }

  /** `\b[a-zA-Z0-9._-]+@[a-zA-Z]+\b` at `i`. Backtracking into either run
      never helps: `@` is not a local-part character, and inside a run of
      letters there is no word boundary. */
  function MatchUpiAt(t: string, i: nat): (r: Option<nat>)
    requires i <= |t|
    ensures r.Some? ==> i < r.value <= |t|
  {
    if !Boundary(t, i) then None
    else
      var a := RunEnd(t, i, IsUpiLocalChar);
      if a == i || a == |t| || t[a] != '@' then None
      else
        var e := RunEnd(t, a + 1, IsLetter);
        if e == a + 1 || !Boundary(t, e) then None else Some(e)
  }

  // ---------------------------------------------------------------- URL

  /** The repeated group of the link pattern. Its class `[$-_@.&+]` is the
      character RANGE from `$` to `_` (digits, capitals, `%`, `&`, `'`, `(`,
      `)`, `*`, `+`, `,`, `-`, `.`, `/`, `:`, `;`, `<`, `=`, `>`, `?`, `@`,
      `[`, `\`, `]`, `^`, `_`); with the lower-case letters and `!` that is
      every character the group can take, and the `%hh` escape alternative
      adds none. */
  predicate IsUrlChar(c: char) {
    IsLowerLetter(c) || '$' <= c <= '_' || c == '!'
  }

  /** `http[s]?://` followed by the longest non-empty run of link characters. */
  function MatchUrlAt(t: string, i: nat): (r: Option<nat>)
    requires i <= |t|
    ensures r.Some? ==> i < r.value <= |t|
  {
    if !(i + 4 <= |t| && t[i] == 'h' && t[i + 1] == 't' && t[i + 2] == 't' && t[i + 3] == 'p') then None
    else
      var j := if i + 4 < |t| && t[i + 4] == 's' then i + 5 else i + 4;
      if !(j + 3 <= |t| && t[j] == ':' && t[j + 1] == '/' && t[j + 2] == '/') then None
      else
        var e := RunEnd(t, j + 3, IsUrlChar);
        if e == j + 3 then None else Some(e)
  }

  // ---------------------------------------------------------------- bank identifiers

  /** A bare account number: 9 to 18 digits. */
  predicate AccountShape(w: string) {
    9 <= |w| <= 18 && AllDigits(w)
  }

  /** An IFSC code: four capitals, a zero, six capitals or digits. */
  predicate IfscShape(w: string) {
    && |w| == 11
    && (forall k :: 0 <= k < 4 ==> IsUpper(w[k]))
    && w[4] == '0'
    && (forall k :: 5 <= k < 11 ==> IsUpper(w[k]) || IsDigit(w[k]))
  }

  /** The backtracking of `\d{9,18}\b`: having taken `k` digits, give them
      back one at a time until a word boundary follows, but keep at least 9. */
  function BacktrackDigits(t: string, i: nat, k: nat): (r: Option<nat>)
    requires DigitsAt(t, i, k)
    ensures r.Some? ==> 9 <= r.value - i <= k && Boundary(t, r.value)
    ensures r.None? ==> forall e :: i + 9 <= e <= i + k ==> !Boundary(t, e)
    decreases k
  {
    if k < 9 then None
    else if Boundary(t, i + k) then Some(i + k)
    else BacktrackDigits(t, i, k - 1)
  }

  /** `\b\d{9,18}\b` at `i`: take up to 18 digits greedily, then backtrack. */
  function MatchAccountAt(t: string, i: nat): (r: Option<nat>)
    requires i <= |t|
    ensures r.Some? ==> i < r.value <= |t|
  {
    if !Boundary(t, i) then None
    else
      var n := RunEnd(t, i, IsDigit) - i;
      BacktrackDigits(t, i, if n < 18 then n else 18)
  }

  /** `\b[A-Z]{4}0[A-Z0-9]{6}\b` at `i`. */
  function MatchIfscAt(t: string, i: nat): (r: Option<nat>)
    requires i <= |t|
    ensures r.Some? ==> i < r.value <= |t|
  {
    if Boundary(t, i) && i + 11 <= |t| && IfscShape(t[i..i + 11]) && Boundary(t, i + 11)
    then Some(i + 11) else None
  }

  // ---------------------------------------------------------------- search and findall

  function MatchAt(p: Pattern, t: string, i: nat): (r: Option<nat>)
    requires i <= |t|
    ensures r.Some? ==> i < r.value <= |t|
  {
    match p
    case Phone => MatchPhoneAt(t, i)
    case Upi => MatchUpiAt(t, i)
    case Url => MatchUrlAt(t, i)
    case Account => MatchAccountAt(t, i)
    case Ifsc => MatchIfscAt(t, i)
  }

  /** `w` is the text of a match of `p` that starts at or after `from`. */
  ghost predicate MatchedFrom(p: Pattern, t: string, from: nat, w: string) {
    exists a: nat, b: nat :: from <= a < b <= |t| && MatchAt(p, t, a) == Some(b) && w == t[a..b]
  }

  /** `re.findall(p, t)` from position `from`: at each position try a match;
      on success emit it and resume at its end, otherwise move on by one.
      No pattern here matches the empty string. */
  function FindAll(p: Pattern, t: string, from: nat): seq<string>
    requires from <= |t|
    decreases |t| - from
  {
    if from == |t| then []
    else
      match MatchAt(p, t, from)
      case Some(e) => [t[from..e]] + FindAll(p, t, e)
      case None => FindAll(p, t, from + 1)
  }

  /** Every string `findall` returns is the text of a match that starts at
      or after the scan position. */
  lemma {:induction false} FindAllMatched(p: Pattern, t: string, from: nat)
    requires from <= |t|
    ensures forall k :: 0 <= k < |FindAll(p, t, from)| ==> MatchedFrom(p, t, from, FindAll(p, t, from)[k])
    decreases |t| - from
  {
    if from < |t| {
      var next := match MatchAt(p, t, from) case Some(e) => e case None => from + 1;
      FindAllMatched(p, t, next);
      var rest := FindAll(p, t, next);
      forall k | 0 <= k < |rest|
        ensures MatchedFrom(p, t, from, rest[k])
      {
        assert MatchedFrom(p, t, next, rest[k]);
        var a: nat, b: nat :| next <= a < b <= |t| && MatchAt(p, t, a) == Some(b) && rest[k] == t[a..b];
      }
      if MatchAt(p, t, from).Some? {
        assert FindAll(p, t, from) == [t[from..next]] + rest;
      }
    }
  }

  /** `re.search(p, t)` succeeds. */
  predicate Search(p: Pattern, t: string) {
    exists i :: 0 <= i <= |t| && MatchAt(p, t, i).Some?
  }

  /** Searching succeeds exactly when findall finds something. */
  lemma {:induction false} FindAllEmpty(p: Pattern, t: string, from: nat)
    requires from <= |t|
    ensures |FindAll(p, t, from)| == 0 <==> forall i :: from <= i <= |t| ==> MatchAt(p, t, i).None?
    decreases |t| - from
  {
    if from < |t| {
      match MatchAt(p, t, from)
      case Some(e) =>
        ScanHit(p, t, from, e);
        assert |FindAll(p, t, from)| > 0;
      case None =>
        ScanMiss(p, t, from);
        FindAllEmpty(p, t, from + 1);
        assert |FindAll(p, t, from)| == |FindAll(p, t, from + 1)|;
    }
  }

  /** The scan emits a match where one starts and resumes at its end. */
  lemma ScanHit(p: Pattern, t: string, from: nat, e: nat)
    requires from < |t| && MatchAt(p, t, from) == Some(e)
    ensures FindAll(p, t, from) == [t[from..e]] + FindAll(p, t, e)
  {
  }

  /** No match of `p` starts at `i`, a position inside `t`. */
  predicate Misses(p: Pattern, t: string, i: nat) {
    i < |t| && MatchAt(p, t, i).None?
  }

  lemma ScanMiss(p: Pattern, t: string, from: nat)
    requires Misses(p, t, from)
    ensures FindAll(p, t, from) == FindAll(p, t, from + 1)
  {
  }

  /** A scan over positions where nothing matches skips them all. */
  lemma {:induction false} ScanSkips(p: Pattern, t: string, from: nat, upto: nat)
    requires from <= upto <= |t|
    requires forall i :: from <= i < upto ==> Misses(p, t, i)
    ensures FindAll(p, t, from) == FindAll(p, t, upto)
    decreases upto
  {
    if from < upto {
      ScanSkips(p, t, from, upto - 1);
      ScanMiss(p, t, upto - 1);
      SameScan(FindAll(p, t, from), FindAll(p, t, upto - 1), FindAll(p, t, upto));
    }
  }

  /** Chaining two equal scans; stated apart so the chain is not re-derived
      element by element. */
  lemma SameScan(a: seq<string>, b: seq<string>, c: seq<string>)
    requires a == b && b == c
    ensures a == c
  {
  }

  lemma SearchIffFound(p: Pattern, t: string)
    ensures Search(p, t) <==> |FindAll(p, t, 0)| > 0
  {
    FindAllEmpty(p, t, 0);
  }

  /** Every artifact found is a piece of the message. */
  lemma FoundAreSubstrings(p: Pattern, t: string, w: string)
    requires w in FindAll(p, t, 0)
    ensures exists a :: OccursAt(t, w, a)
  {
    FindAllMatched(p, t, 0);
    var k :| 0 <= k < |FindAll(p, t, 0)| && FindAll(p, t, 0)[k] == w;
    MatchedOccurs(p, t, 0, w);
  }

  lemma MatchedOccurs(p: Pattern, t: string, from: nat, w: string)
    requires MatchedFrom(p, t, from, w)
    ensures exists a :: OccursAt(t, w, a)
  {
    var a: nat, b: nat :| from <= a < b <= |t| && w == t[a..b] && MatchAt(p, t, a) == Some(b);
    SliceOccurs(t, a, b);
  }
}
