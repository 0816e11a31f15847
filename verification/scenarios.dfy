/**
 * Concrete messages and what the model proves about them: a handle cut
 * short at the first dot or hyphen of an e-mail domain, one phone number
 * written two ways, and the urgent-account message that the scorer flags.
 */
module Scenarios {
  import opened Wrappers
  import opened Text
  import opened Catalog
  import opened Regex
  import opened Score
  import opened Extraction

  /** A run of class characters from `i` that stops at `e` is the run `RunEnd` finds. */
  lemma RunEndIs(t: string, i: nat, e: nat, inClass: char -> bool)
    requires i <= e <= |t|
    requires forall k :: i <= k < e ==> inClass(t[k])
    requires e == |t| || !inClass(t[e])
    ensures RunEnd(t, i, inClass) == e
  {
  }

  // ---------------------------------------------------------------- a UPI handle inside an e-mail address

  const Handle: string := "rajesh.kumar@sbi"
  const DomainRest: string := "-customer-care.com"
  const Email: string := Handle + DomainRest

  /** Every character after the handle may continue a local part. */
  lemma DomainRestIsLocal()
    ensures forall k :: 0 <= k < |DomainRest| ==> IsUpiLocalChar(DomainRest[k])
  {
  }

  /** The match at the start: the local part runs to the `@`, the provider
      stops before the hyphen, and a word boundary follows. */
  lemma HandleMatch()
    ensures MatchAt(Upi, Email, 0) == Some(|Handle|)
  {
    var t := Email;
    assert |t| == 34 && t[12] == '@';
    RunEndIs(t, 0, 12, IsUpiLocalChar);
    RunEndIs(t, 13, 16, IsLetter);
  }

  /** No handle starts after the first one: the local-part run from any later
      position reaches the end without meeting an `@`. */
  lemma NoHandleInDomain()
    ensures forall i :: |Handle| <= i <= |Email| ==> MatchAt(Upi, Email, i).None?
  {
    var t := Email;
    DomainRestIsLocal();
    forall i | |Handle| <= i <= |t|
      ensures MatchAt(Upi, t, i).None?
    {
      forall k | i <= k < |t|
        ensures IsUpiLocalChar(t[k])
      {
        assert t[k] == DomainRest[k - |Handle|];
      }
      RunEndIs(t, i, |t|, IsUpiLocalChar);
    }
  }

  /** The handle pattern stops the provider at the first non-letter, and the
      rest of the domain holds no further `@`: the address yields exactly
      one handle, `rajesh.kumar@sbi`. */
  lemma EmailYieldsCutHandle()
    ensures ExtractIntelligence(Email).upiIds == {"rajesh.kumar@sbi"}
  {
    var t := Email;
    HandleMatch();
    ScanHit(Upi, t, 0, |Handle|);
    NoHandleInDomain();
    FindAllEmpty(Upi, t, |Handle|);
    assert t[0..|Handle|] == Handle;
    assert FindAll(Upi, t, 0) == [Handle];
  }

  // ---------------------------------------------------------------- one number, two spellings

  const Bare: string := "9876543210"
  const Dashed: string := "987-654-3210"
  const TwoSpellings: string := Bare + " or " + Dashed

  /** The bare spelling matches the first alternative: ten digits in a row. */
  lemma BareMatch()
    ensures MatchAt(Phone, TwoSpellings, 0) == Some(10)
    ensures TwoSpellings[0..10] == Bare
  {
    var t := TwoSpellings;
    assert |t| == 26 && t[10] == ' ';
    RunEndIs(t, 0, 10, IsDigit);
  }

  /** Between the two spellings nothing matches: no digit starts there. */
  lemma NothingBetween()
    ensures forall i :: 10 <= i < 14 ==> MatchAt(Phone, TwoSpellings, i).None?
  {
    var t := TwoSpellings;
    forall i | 10 <= i < 14
      ensures MatchAt(Phone, t, i).None?
    {
      assert !IsDigit(t[i]) && t[i] != '+';
      RunEndIs(t, i, i, IsDigit);
    }
  }

  /** The dashed spelling matches the second alternative: three, three and
      four digits with one separator after each of the first two groups. */
  lemma DashedMatch()
    ensures MatchAt(Phone, TwoSpellings, 14) == Some(26)
    ensures TwoSpellings[14..26] == Dashed
  {
    var t := TwoSpellings;
    assert |t| == 26 && t[14..26] == Dashed;
    RunEndIs(t, 14, 17, IsDigit);
    assert SkipSep(t, 17) == 18 && SkipSep(t, 21) == 22;
    assert DigitsAt(t, 14, 3) && DigitsAt(t, 18, 3) && DigitsAt(t, 22, 4);
  }

  /** The scan over the message finds the two spellings, in order. */
  lemma ScanFindsBoth()
    ensures FindAll(Phone, TwoSpellings, 0) == [Bare, Dashed]
  {
    var t := TwoSpellings;
    BareMatch();
    NothingBetween();
    DashedMatch();
    ScanHit(Phone, t, 0, 10);
    ScanMiss(Phone, t, 10);
    ScanMiss(Phone, t, 11);
    ScanMiss(Phone, t, 12);
    ScanMiss(Phone, t, 13);
    ScanHit(Phone, t, 14, 26);
  }

  /** Phone numbers are kept as written: the same number with and without
      separators gives two entries. */
  lemma SpellingsAreNotMerged()
    ensures ExtractIntelligence(TwoSpellings).phoneNumbers == {Bare, Dashed}
    ensures Bare != Dashed
  {
    ScanFindsBoth();
  }

  /** No link starts where there is no `h`. */
  lemma NoLinkWithoutH(t: string, i: nat)
    requires i < |t| && t[i] != 'h'
    ensures MatchAt(Url, t, i).None?
  {
    assert i + 4 <= |t| ==> t[i..i + 4][0] == t[i];
  }

  /** No phone number starts where there is neither a digit nor a plus. */
  lemma NoPhoneWithoutDigit(t: string, i: nat)
    requires i < |t| && !IsDigit(t[i]) && t[i] != '+'
    ensures MatchAt(Phone, t, i).None?
  {
    RunEndIs(t, i, i, IsDigit);
    assert !DigitsAt(t, i, 3);
  }

  // ---------------------------------------------------------------- where a piece of a message sits

  lemma EndsWith(a: string, p: string)
    ensures OccursAt(a + p, p, |a|)
  {
    assert (a + p)[|a|..|a| + |p|] == p;
  }

  lemma OccursBefore(s: string, b: string, p: string, i: nat)
    requires OccursAt(s, p, i)
    ensures OccursAt(s + b, p, i)
  {
    assert (s + b)[i..i + |p|] == s[i..i + |p|];
  }

  lemma OccursAfter(a: string, s: string, p: string, i: nat)
    requires OccursAt(s, p, i)
    ensures OccursAt(a + s, p, |a| + i)
  {
    assert (a + s)[|a| + i..|a| + i + |p|] == s[i..i + |p|];
  }

  lemma CharAt(s: string, p: string, i: nat, k: nat)
    requires OccursAt(s, p, i) && k < |p|
    ensures s[i + k] == p[k]
  {
    assert s[i..i + |p|][k] == s[i + k];
  }

  // ---------------------------------------------------------------- an urgent-account message

  const Shout: string := "URGENT"
  const Before: string := ": your account will be "
  const Threat: string := "blocked"
  const Ask: string := "verify"
  const Middle: string := ", " + Ask + " now at "
  const Site: string := "x.example/v,"
  const Link: string := "http" + "://" + Site
  const Call: string := " call "
  /** The message up to the link: 52 characters, none of them an `h`. */
  const Lead: string := Shout + Before + Threat + Middle
  const Alert: string := Lead + Link + Call + Bare

  lemma LowerShout()
    ensures Lower(Shout) == "urgent"
  {
    var s := Shout;
    assert Lower(s[5..]) == "t";
    assert Lower(s[4..]) == "nt";
    assert Lower(s[3..]) == "ent";
    assert Lower(s[2..]) == "gent";
    assert Lower(s[1..]) == "rgent";
  }

  lemma BeforeKeepsCase()
    ensures Lower(Before) == Before
  {
    assert forall k :: 0 <= k < |Before| ==> Plain(Before[k]);
    LowerFixesExactlyPlain(Before);
  }

  lemma ThreatKeepsCase()
    ensures Lower(Threat) == Threat
  {
    assert forall k :: 0 <= k < |Threat| ==> Plain(Threat[k]);
    LowerFixesExactlyPlain(Threat);
  }

  lemma MiddleKeepsCase()
    ensures Lower(Middle) == Middle
  {
    assert forall k :: 0 <= k < |Middle| ==> Plain(Middle[k]);
    LowerFixesExactlyPlain(Middle);
  }

  lemma LinkKeepsCase()
    ensures Lower(Link) == Link
  {
    assert forall k :: 0 <= k < |Link| ==> Plain(Link[k]);
    LowerFixesExactlyPlain(Link);
  }

  lemma CallKeepsCase()
    ensures Lower(Call) == Call
  {
    assert forall k :: 0 <= k < |Call| ==> Plain(Call[k]);
    LowerFixesExactlyPlain(Call);
  }

  lemma BareKeepsCase()
    ensures Lower(Bare) == Bare
  {
    assert forall k :: 0 <= k < |Bare| ==> Plain(Bare[k]);
    LowerFixesExactlyPlain(Bare);
  }

  /** Lower-casing changes only the shouted word. */
  lemma LowerAlert()
    ensures Lower(Alert) == "urgent" + Before + Threat + Middle + Link + Call + Bare
  {
    LowerShout();
    BeforeKeepsCase(); ThreatKeepsCase(); MiddleKeepsCase();
    LinkKeepsCase(); CallKeepsCase(); BareKeepsCase();
    var p1 := Shout + Before;
    LowerAppend(Shout, Before);
    var p2 := p1 + Threat;
    LowerAppend(p1, Threat);
    var p3 := p2 + Middle;
    LowerAppend(p2, Middle);
    var p4 := p3 + Link;
    LowerAppend(p3, Link);
    var p5 := p4 + Call;
    LowerAppend(p4, Call);
    LowerAppend(p5, Bare);
  }

  lemma UrgentHit()
    ensures Hit(Urgency, Lower(Alert))
  {
    LowerAlert();
    var u := "urgent";
    EndsWith("", u);
    assert "" + u == u;
    OccursBefore(u, Before, u, 0);
    OccursBefore(u + Before, Threat, u, 0);
    OccursBefore(u + Before + Threat, Middle, u, 0);
    OccursBefore(u + Before + Threat + Middle, Link, u, 0);
    OccursBefore(u + Before + Threat + Middle + Link, Call, u, 0);
    OccursBefore(u + Before + Threat + Middle + Link + Call, Bare, u, 0);
    assert Contains(Lower(Alert), Patterns(Urgency)[0]);
  }

  lemma ThreatHit()
    ensures Hit(Threats, Lower(Alert))
  {
    LowerAlert();
    var u := "urgent";
    EndsWith(u + Before, Threat);
    OccursBefore(u + Before + Threat, Middle, Threat, 29);
    OccursBefore(u + Before + Threat + Middle, Link, Threat, 29);
    OccursBefore(u + Before + Threat + Middle + Link, Call, Threat, 29);
    OccursBefore(u + Before + Threat + Middle + Link + Call, Bare, Threat, 29);
    assert Contains(Lower(Alert), Patterns(Threats)[0]);
  }

  lemma AskHit()
    ensures Hit(PersonalInfo, Lower(Alert))
  {
    LowerAlert();
    var u := "urgent";
    EndsWith(", ", Ask);
    OccursBefore(", " + Ask, " now at ", Ask, 2);
    OccursAfter(u + Before + Threat, Middle, Ask, 2);
    OccursBefore(u + Before + Threat + Middle, Link, Ask, 38);
    OccursBefore(u + Before + Threat + Middle + Link, Call, Ask, 38);
    OccursBefore(u + Before + Threat + Middle + Link + Call, Bare, Ask, 38);
    assert Contains(Lower(Alert), Patterns(PersonalInfo)[0]);
  }

  /** The pieces of the link in place: the scheme at 52, the separator at 56,
      the site from 59 to 71, and the space after it. */
  lemma LinkPieces()
    ensures |Alert| == 87
    ensures OccursAt(Alert, "http", 52) && OccursAt(Alert, "://", 56)
    ensures OccursAt(Alert, Site, 59) && OccursAt(Alert, Call, 71)
  {
    EndsWith("", "http");
    assert "" + "http" == "http";
    OccursBefore("http", "://", "http", 0);
    EndsWith("http", "://");
    EndsWith("http" + "://", Site);
    OccursBefore("http" + "://", Site, "http", 0);
    OccursBefore("http" + "://", Site, "://", 4);
    OccursAfter(Lead, Link, "http", 0);
    OccursAfter(Lead, Link, "://", 4);
    OccursAfter(Lead, Link, Site, 7);
    EndsWith(Lead + Link, Call);
    OccursBefore(Lead + Link, Call, "http", 52);
    OccursBefore(Lead + Link, Call, "://", 56);
    OccursBefore(Lead + Link, Call, Site, 59);
    OccursBefore(Lead + Link + Call, Bare, "http", 52);
    OccursBefore(Lead + Link + Call, Bare, "://", 56);
    OccursBefore(Lead + Link + Call, Bare, Site, 59);
    OccursBefore(Lead + Link + Call, Bare, Call, 71);
  }

  /** The link runs from `http` at 52 over `x.example/v,` and stops at the
      space: the comma belongs to the link's character class. */
  lemma LinkMatch()
    ensures MatchAt(Url, Alert, 52) == Some(71)
    ensures Alert[52..71] == Link
  {
    LinkScheme();
    LinkRun();
    LinkText();
  }

  lemma LinkScheme()
    ensures |Alert| == 87
    ensures Alert[52] == 'h' && Alert[53] == 't' && Alert[54] == 't' && Alert[55] == 'p'
    ensures Alert[56] == ':' && Alert[57] == '/' && Alert[58] == '/'
  {
    LinkPieces();
    forall k | 0 <= k < 4
      ensures Alert[52 + k] == "http"[k]
    {
      CharAt(Alert, "http", 52, k);
    }
    forall k | 0 <= k < 3
      ensures Alert[56 + k] == "://"[k]
    {
      CharAt(Alert, "://", 56, k);
    }
  }

  lemma LinkRun()
    ensures |Alert| == 87
    ensures RunEnd(Alert, 59, IsUrlChar) == 71
  {
    var t := Alert;
    LinkPieces();
    forall k | 59 <= k < 71
      ensures IsUrlChar(t[k])
    {
      CharAt(t, Site, 59, k - 59);
    }
    CharAt(t, Call, 71, 0);
    RunEndIs(t, 59, 71, IsUrlChar);
  }

  lemma LinkText()
    ensures |Alert| == 87
    ensures Alert[52..71] == Link
  {
    EndsWith(Lead, Link);
    OccursBefore(Lead + Link, Call, Link, 52);
    OccursBefore(Lead + Link + Call, Bare, Link, 52);
  }

  /** The ten digits at the end match the first phone alternative. */
  lemma BareAtEnd()
    ensures MatchAt(Phone, Alert, 77) == Some(87)
    ensures Alert[77..87] == Bare
  {
    var t := Alert;
    EndsWith(Lead + Link + Call, Bare);
    forall k | 77 <= k < 87
      ensures IsDigit(t[k])
    {
      CharAt(t, Bare, 77, k - 77);
    }
    RunEndIs(t, 77, 87, IsDigit);
  }

  lemma NoHBeforeLink()
    ensures |Alert| == 87
    ensures forall i :: 0 <= i < 52 ==> Alert[i] != 'h'
  {
    assert forall i :: 0 <= i < |Lead| ==> Lead[i] != 'h';
  }

  lemma NoHAfterLink()
    ensures |Alert| == 87
    ensures forall i :: 71 <= i < 87 ==> Alert[i] != 'h'
  {
    assert forall i :: 0 <= i < |Call| ==> Call[i] != 'h';
    assert forall i :: 0 <= i < |Bare| ==> Bare[i] != 'h';
  }

  lemma NoDigitBeforeNumber()
    ensures |Alert| == 87
    ensures forall i :: 0 <= i < 77 ==> !IsDigit(Alert[i]) && Alert[i] != '+'
  {
    assert forall i :: 0 <= i < |Lead| ==> !IsDigit(Lead[i]) && Lead[i] != '+';
    assert forall i :: 0 <= i < |Link| ==> !IsDigit(Link[i]) && Link[i] != '+';
    assert forall i :: 0 <= i < |Call| ==> !IsDigit(Call[i]) && Call[i] != '+';
  }

  /** The message yields exactly one link, with its trailing comma. */
  lemma AlertLinks()
    ensures FindAll(Url, Alert, 0) == [Link]
  {
    var t := Alert;
    NoHBeforeLink();
    NoHAfterLink();
    forall i | 0 <= i < 52 ensures Misses(Url, t, i) {
      NoLinkWithoutH(t, i);
    }
    forall i | 71 <= i < 87 ensures Misses(Url, t, i) {
      NoLinkWithoutH(t, i);
    }
    ScanSkips(Url, t, 0, 52);
    LinkMatch();
    ScanHit(Url, t, 52, 71);
    ScanSkips(Url, t, 71, 87);
  }

  /** The message yields exactly one phone number, the ten digits at its end. */
  lemma AlertPhones()
    ensures FindAll(Phone, Alert, 0) == [Bare]
  {
    var t := Alert;
    NoDigitBeforeNumber();
    forall i | 0 <= i < 77 ensures Misses(Phone, t, i) {
      NoPhoneWithoutDigit(t, i);
    }
    ScanSkips(Phone, t, 0, 77);
    BareAtEnd();
    ScanHit(Phone, t, 77, 87);
  }

  /** The urgent-account message is a scam: urgency, a threat and a request
      to verify earn 60 hundredths, the link and the number 20 more. */
  lemma AlertIsScam()
    ensures ScamScore(Alert) >= 80
    ensures IsScam(Alert)
  {
    AlertPoints();
    AlertBonus();
  }

  lemma AlertPoints()
    ensures CategoryPoints(Categories, Lower(Alert)) >= 60
  {
    UrgentHit();
    ThreatHit();
    AskHit();
    ThreeHitsEarnSixty(Lower(Alert));
  }

  lemma AlertBonus()
    ensures Bonus(Alert) == LinkBonus + PhoneBonus
  {
    LinkMatch();
    BareAtEnd();
    assert Search(Url, Alert) && Search(Phone, Alert);
  }

  /** What the extractor reports for the urgent-account message: one link,
      `http://x.example/v,` with its comma, and one phone number. */
  lemma AlertArtifacts()
    ensures ExtractIntelligence(Alert).phishingLinks == {Link}
    ensures ExtractIntelligence(Alert).phoneNumbers == {Bare}
  {
    AlertLinkFound();
    AlertPhoneFound();
  }

  lemma AlertLinkFound()
    ensures Found(Url, Alert) == {Link}
  {
    AlertLinks();
  }

  lemma AlertPhoneFound()
    ensures Found(Phone, Alert) == {Bare}
  {
    AlertPhones();
  }
}
