/**
 * What the artifact matchers find: the shape of every phone number, link and
 * UPI handle they report, and an exact description of the bank identifiers as
 * whole words of the message.
 */
module RegexFacts {
  import opened Text
  import opened Wrappers
  import opened Regex

  // ---------------------------------------------------------------- shapes of single matches

  lemma SliceSplit(t: string, a: nat, b: nat, c: nat)
    requires a <= b <= c <= |t|
    ensures t[a..c] == t[a..b] + t[b..c]
  {
  }

  /** The first alternative: an optional plus and ten or more digits. */
  lemma LongPhoneShape(t: string, i: nat, a: nat, e: nat)
    requires i <= a <= i + 1 && e <= |t| && a + 10 <= e
    requires a == i + 1 ==> t[i] == '+'
    requires forall k :: a <= k < e ==> IsDigit(t[k])
    ensures DigitCount(t[i..e]) >= 10
  {
    assert AllDigits(t[a..e]);
    DigitCountAll(t[a..e]);
    if a == i + 1 {
      assert t[i..e] == [t[i]] + t[a..e];
      DigitCountAppend([t[i]], t[a..e]);
    } else {
      assert t[i..e] == t[a..e];
    }
  }

  /** The second alternative: groups of three, three and four digits. */
  lemma GroupedPhoneShape(t: string, i: nat, j: nat, k: nat, e: nat)
    requires i + 3 <= j <= i + 4 && j + 3 <= k <= j + 4 && e == k + 4 <= |t|
    requires DigitsAt(t, i, 3) && DigitsAt(t, j, 3) && DigitsAt(t, k, 4)
    ensures DigitCount(t[i..e]) >= 10
  {
    var g1, s1, g2, s2, g3 := t[i..i + 3], t[i + 3..j], t[j..j + 3], t[j + 3..k], t[k..e];
    SliceSplit(t, i, i + 3, e);
    SliceSplit(t, i + 3, j, e);
    SliceSplit(t, j, j + 3, e);
    SliceSplit(t, j + 3, k, e);
    assert t[i..e] == g1 + (s1 + (g2 + (s2 + g3)));
    assert AllDigits(g1) && AllDigits(g2) && AllDigits(g3);
    DigitCountAll(g1);
    DigitCountAll(g2);
    DigitCountAll(g3);
    DigitCountAppend(s2, g3);
    DigitCountAppend(g2, s2 + g3);
    DigitCountAppend(s1, g2 + (s2 + g3));
    DigitCountAppend(g1, s1 + (g2 + (s2 + g3)));
  }

  /** The shape of a phone match: it begins with a digit or `+`, ends with a
      digit, holds only digits, `+` and separators, and holds at least ten
      digits. */
  predicate PhoneShape(w: string) {
    && |w| > 0
    && (IsDigit(w[0]) || w[0] == '+')
    && IsDigit(w[|w| - 1])
    && (forall k :: 0 <= k < |w| ==> IsPhoneChar(w[k]))
    && DigitCount(w) >= 10
  }

  /** The shape of a link match: `http://` or `https://` and then one or more
      link characters. */
  predicate LinkShape(w: string) {
    || (|w| > 7 && w[..7] == "http://" && forall k :: 7 <= k < |w| ==> IsUrlChar(w[k]))
    || (|w| > 8 && w[..8] == "https://" && forall k :: 8 <= k < |w| ==> IsUrlChar(w[k]))
  }

  /** The shape of a UPI match: a non-empty local part, one `@`, and a
      non-empty provider of letters only. */
  predicate UpiShape(w: string) {
    exists at :: && 0 < at < |w| - 1 && w[at] == '@'
                 && (forall k :: 0 <= k < at ==> IsUpiLocalChar(w[k]))
                 && (forall k :: at < k < |w| ==> IsLetter(w[k]))
  }

  /** A piece of the message that begins with a digit or `+`, ends with a
      digit, holds only phone characters and at least ten digits has the
      phone shape. */
  lemma PhoneShapeOfSlice(t: string, i: nat, e: nat)
    requires i < e <= |t|
    requires IsDigit(t[i]) || t[i] == '+'
    requires IsDigit(t[e - 1])
    requires forall k :: i <= k < e ==> IsPhoneChar(t[k])
    requires DigitCount(t[i..e]) >= 10
    ensures PhoneShape(t[i..e])
  {
    SliceChars(t, i, e, IsPhoneChar);
    assert t[i..e][0] == t[i];
    assert t[i..e][e - i - 1] == t[e - 1];
  }

  /** Every phone match has the phone shape. Separators are kept as written:
      `987-654-3210` and `9876543210` are different matches. */
  lemma PhoneMatchShape(t: string, i: nat, e: nat)
    requires i <= |t| && MatchAt(Phone, t, i) == Some(e)
    ensures PhoneShape(t[i..e])
  {
    var a := if i < |t| && t[i] == '+' then i + 1 else i;
    var r := RunEnd(t, a, IsDigit);
    if r - a >= 10 {
      assert e == r;
      LongPhoneShape(t, i, a, e);
      assert IsDigit(t[a]) && IsDigit(t[e - 1]);
      PhoneShapeOfSlice(t, i, e);
    } else {
      var j := SkipSep(t, i + 3);
      var k := SkipSep(t, j + 3);
      assert MatchGroupedPhoneAt(t, i) == Some(e) && e == k + 4;
      GroupedPhoneShape(t, i, j, k, e);
      assert forall m :: i <= m < e ==> IsPhoneChar(t[m]) by {
        forall m | i <= m < e
          ensures IsPhoneChar(t[m])
        {
          if m == i + 3 && j == i + 4 {
            assert IsPhoneSep(t[m]);
          } else if m == j + 3 && k == j + 4 {
            assert IsPhoneSep(t[m]);
          }
        }
      }
      PhoneShapeOfSlice(t, i, e);
    }
  }

  /** Every link match has the link shape, and it runs as far as the link
      characters do. */
  lemma UrlMatchShape(t: string, i: nat, e: nat)
    requires i <= |t| && MatchAt(Url, t, i) == Some(e)
    ensures LinkShape(t[i..e])
    ensures e == |t| || !IsUrlChar(t[e])
  {
    var j := if i + 4 < |t| && t[i + 4] == 's' then i + 5 else i + 4;
    assert e == RunEnd(t, j + 3, IsUrlChar) && j + 3 < e;
    var w := t[i..e];
    var n := j + 3 - i;
    forall k | 0 <= k < |w|
      ensures w[k] == t[i + k]
    {
    }
    if j == i + 4 {
      SchemePrefix(w, "http://");
    } else {
      SchemePrefix(w, "https://");
    }
    forall k | n <= k < |w|
      ensures IsUrlChar(w[k])
    {
      assert w[k] == t[i + k];
    }
  }

  /** A string that starts, character by character, with a scheme starts with it. */
  lemma SchemePrefix(w: string, scheme: string)
    requires |scheme| <= |w| && forall k :: 0 <= k < |scheme| ==> w[k] == scheme[k]
    ensures w[..|scheme|] == scheme
  {
  }

  /** Every UPI match has the handle shape and no word character follows it.
      So the provider stops at the first dot or hyphen:
      `rajesh.kumar@sbi-customer-care.com` gives `rajesh.kumar@sbi`. */
  lemma UpiMatchShape(t: string, i: nat, e: nat)
    requires i <= |t| && MatchAt(Upi, t, i) == Some(e)
    ensures UpiShape(t[i..e])
    ensures e == |t| || !IsWordChar(t[e])
  {
    var at := RunEnd(t, i, IsUpiLocalChar);
    assert WordAt(t, e - 1);
    var w := t[i..e];
    forall k | 0 <= k < |w|
      ensures w[k] == t[i + k]
    {
    }
    assert w[at - i] == '@';
  }

  // ---------------------------------------------------------------- bank identifiers are tokens

  /** `t[a..b]` is a whole word of `t`: a maximal run of word characters. */
  predicate IsWordToken(t: string, a: int, b: int) {
    && 0 <= a < b <= |t|
    && !WordAt(t, a - 1)
    && !WordAt(t, b)
    && forall k :: a <= k < b ==> IsWordChar(t[k])
  }

  /** A word determines its end. */
  lemma TokenEndUnique(t: string, a: int, b: int, b': int)
    requires IsWordToken(t, a, b) && IsWordToken(t, a, b')
    ensures b == b'
  {
    assert b < b' ==> WordAt(t, b);
    assert b' < b ==> WordAt(t, b');
  }

  /** No word starts strictly inside another. */
  lemma NoTokenStartsInside(t: string, a: int, b: int, a': int)
    requires IsWordToken(t, a, b)
    requires a < a' < b
    ensures WordAt(t, a' - 1)
  {
  }

  /** The word shape each bank pattern accepts. */
  predicate TokenShape(p: Pattern, w: string) {
    match p
    case Account => AccountShape(w)
    case Ifsc => IfscShape(w)
    case _ => false
  }

  /** `\b\d{9,18}\b` matches at `a` exactly when a word of 9 to 18 digits
      starts there; the backtracking never stops inside a longer run. */
  lemma AccountMatchIff(t: string, a: nat, b: nat)
    requires a <= |t|
    ensures MatchAt(Account, t, a) == Some(b) <==> IsWordToken(t, a, b) && AccountShape(t[a..b])
  {
    if MatchAt(Account, t, a) == Some(b) {
      var n := RunEnd(t, a, IsDigit) - a;
      assert DigitsAt(t, a, b - a);
      assert WordAt(t, b - 1) && WordAt(t, a);
      assert forall k :: 0 <= k < b - a ==> t[a..b][k] == t[a + k];
    }
    if IsWordToken(t, a, b) && AccountShape(t[a..b]) {
      assert forall k :: a <= k < b ==> t[k] == t[a..b][k - a];
      assert forall k :: a <= k < b ==> IsDigit(t[k]);
      var r := RunEnd(t, a, IsDigit);
      assert r == b;
      assert Boundary(t, a) && Boundary(t, b);
    }
  }

  /** `\b[A-Z]{4}0[A-Z0-9]{6}\b` matches at `a` exactly when an IFSC-shaped
      word starts there. */
  lemma IfscMatchIff(t: string, a: nat, b: nat)
    requires a <= |t|
    ensures MatchAt(Ifsc, t, a) == Some(b) <==> IsWordToken(t, a, b) && IfscShape(t[a..b])
  {
    if IsWordToken(t, a, b) && IfscShape(t[a..b]) {
      assert WordAt(t, a) && WordAt(t, b - 1);
    }
    if MatchAt(Ifsc, t, a) == Some(b) {
      var w := t[a..b];
      assert forall k :: a <= k < b ==> t[k] == w[k - a];
      assert forall k :: a <= k < b ==> IsWordChar(t[k]);
      assert WordAt(t, a) && WordAt(t, b - 1);
    }
  }

  lemma TokenMatchIff(p: Pattern, t: string, a: nat, b: nat)
    requires p == Account || p == Ifsc
    requires a <= |t|
    ensures MatchAt(p, t, a) == Some(b) <==> IsWordToken(t, a, b) && TokenShape(p, t[a..b])
  {
    if p == Account {
      AccountMatchIff(t, a, b);
    } else {
      IfscMatchIff(t, a, b);
    }
  }

  /** `w` is a word of `t` starting at or after `from` with the shape of `p`. */
  ghost predicate ShapedTokenFrom(p: Pattern, t: string, from: nat, w: string) {
    exists a: nat, b: nat :: from <= a && IsWordToken(t, a, b) && TokenShape(p, t[a..b]) && w == t[a..b]
  }

  /** One step of the scan when a word of the right shape starts at `from`:
      it is reported, and the words after it are those found from its end. */
  lemma FindAllTokensHit(p: Pattern, t: string, from: nat, e: nat)
    requires p == Account || p == Ifsc
    requires from < |t| && MatchAt(p, t, from) == Some(e)
    requires forall w :: w in FindAll(p, t, e) <==> ShapedTokenFrom(p, t, e, w)
    ensures forall w :: w in FindAll(p, t, from) <==> ShapedTokenFrom(p, t, from, w)
  {
    TokenMatchIff(p, t, from, e);
    assert FindAll(p, t, from) == [t[from..e]] + FindAll(p, t, e);
    forall w
      ensures w in FindAll(p, t, from) <==> ShapedTokenFrom(p, t, from, w)
    {
      if ShapedTokenFrom(p, t, from, w) {
        var a: nat, b: nat :| from <= a && IsWordToken(t, a, b) && TokenShape(p, t[a..b]) && w == t[a..b];
        if a == from {
          TokenEndUnique(t, from, e, b);
        } else if a < e {
          NoTokenStartsInside(t, from, e, a);
        } else {
          assert ShapedTokenFrom(p, t, e, w);
        }
      }
      if w in FindAll(p, t, from) {
        if w == t[from..e] {
          assert ShapedTokenFrom(p, t, from, w);
        } else {
          assert w in FindAll(p, t, e);
          var a: nat, b: nat :| e <= a && IsWordToken(t, a, b) && TokenShape(p, t[a..b]) && w == t[a..b];
          assert from <= a;
        }
      }
    }
  }

  /** One step of the scan when nothing matches at `from`: no word of the
      right shape starts there. */
  lemma FindAllTokensMiss(p: Pattern, t: string, from: nat, next: nat)
    requires p == Account || p == Ifsc
    requires from < |t| && next == from + 1 && MatchAt(p, t, from).None?
    requires forall w :: w in FindAll(p, t, next) <==> ShapedTokenFrom(p, t, next, w)
    ensures forall w :: w in FindAll(p, t, from) <==> ShapedTokenFrom(p, t, from, w)
  {
    assert FindAll(p, t, from) == FindAll(p, t, next);
    forall w | ShapedTokenFrom(p, t, from, w)
      ensures ShapedTokenFrom(p, t, next, w)
    {
      var a: nat, b: nat :| from <= a && IsWordToken(t, a, b) && TokenShape(p, t[a..b]) && w == t[a..b];
      TokenMatchIff(p, t, a, b);
    }
  }

  /** findall with a bank pattern reports exactly the words of that shape. */
  lemma {:induction false} FindAllTokens(p: Pattern, t: string, from: nat)
    requires p == Account || p == Ifsc
    requires from <= |t|
    ensures forall w :: w in FindAll(p, t, from) <==> ShapedTokenFrom(p, t, from, w)
    decreases |t| - from
  {
    if from < |t| {
      var m := MatchAt(p, t, from);
      if m.Some? {
        FindAllTokens(p, t, m.value);
        FindAllTokensHit(p, t, from, m.value);
      } else {
        FindAllTokens(p, t, from + 1);
        FindAllTokensMiss(p, t, from, from + 1);
      }
    }
  }
}
