/**
  The input validators: a syntactic email check and a `YYYY-MM-DD` date check
  that also rejects days before today. Each `Validate*` returns the verdict
  together with the message the source shows the user.
 */
module Validators {
  import opened Wrappers
  import opened Text
  import opened Clock

  /** The `(is_valid, message)` pair the validators return. */
  datatype Verdict = Verdict(ok: bool, message: string)

  const EmailRequired := "Email is required"
  const EmailInvalid := "Invalid email format. Please provide a valid email address (e.g., john@example.com)"
  const EmailValid := "Valid email"

  const DateRequired := "Date is required"
  const DateFormatHint := "Invalid date format. Please use %Y-%m-%d format (e.g., 2026-02-20)"
  const DatePast := "Date cannot be in the past"
  const DateValid := "Valid date"

  // ---------------------------------------------------------------------------
  // Email: ^[a-zA-Z0-9._%+-]+@[a-zA-Z0-9.-]+\.[a-zA-Z]{2,}$

  predicate IsLocalChar(c: char) {
    IsAsciiLetter(c) || IsAsciiDigit(c) || c == '.' || c == '_' || c == '%' || c == '+' || c == '-'
  }

  predicate IsDomainChar(c: char) {
    IsAsciiLetter(c) || IsAsciiDigit(c) || c == '.' || c == '-'
  }

  predicate LocalPart(t: string) {
    |t| >= 1 && forall i :: 0 <= i < |t| ==> IsLocalChar(t[i])
  }

  predicate DomainPrefix(t: string) {
    |t| >= 1 && forall i :: 0 <= i < |t| ==> IsDomainChar(t[i])
  }

  predicate TopLevelLabel(t: string) {
    |t| >= 2 && forall i :: 0 <= i < |t| ==> IsAsciiLetter(t[i])
  }

  /** `s` is `local "@" pre "." tld` with the '@' at `at` and the final dot at `dot`. */
  predicate EmailSplit(s: string, at: int, dot: int) {
    0 <= at < dot < |s| && s[at] == '@' && s[dot] == '.'
    && LocalPart(s[..at]) && DomainPrefix(s[at + 1..dot]) && TopLevelLabel(s[dot + 1..])
  }

  /** The language of the email pattern: some split of `s` fits the three character classes. */
  ghost predicate EmailShaped(s: string) {
    exists at, dot :: EmailSplit(s, at, dot)
  }

  /** Position of the first `c` in `s`, or `|s|`. */
  function IndexOf(s: string, c: char): (k: nat)
    ensures k <= |s| && (k < |s| ==> s[k] == c)
    ensures forall i :: 0 <= i < k ==> s[i] != c
  {
    if s == [] then 0 else if s[0] == c then 0 else 1 + IndexOf(s[1..], c)
  }

  /** Position of the last `c` in `s`, or -1. */
  function LastIndexOf(s: string, c: char): (k: int)
    ensures -1 <= k < |s| && (k >= 0 ==> s[k] == c)
    ensures forall i :: k < i < |s| ==> s[i] != c
  {
    if s == [] then -1 else if s[|s| - 1] == c then |s| - 1 else LastIndexOf(s[..|s| - 1], c)
  }

  /**
    Matching the pattern against `s`: the '@' must be the first one (the local
    part has no '@') and the dot before the top-level label the last one (the
    label has no '.'), so one candidate split decides the match.
   */
  predicate MatchesEmailPattern(s: string) {
    EmailSplit(s, Candidate(s).0, Candidate(s).1)
  }

  /** The one split the pattern can match: the first '@' and the last '.' after it; `(-1, -1)` without an '@'. */
  function Candidate(s: string): (int, int) {
    var at: int := IndexOf(s, '@');
    if at < |s| then (at, at + 1 + LastIndexOf(s[at + 1..], '.')) else (-1, -1)
  }

  /** Deciding the pattern by the one candidate split is the same as searching every split. */
  lemma EmailMatchIffShaped(s: string)
    ensures MatchesEmailPattern(s) <==> EmailShaped(s)
  {
    if MatchesEmailPattern(s) {
      assert EmailSplit(s, Candidate(s).0, Candidate(s).1);
    }
    if EmailShaped(s) {
      var a, d :| EmailSplit(s, a, d);
      SplitIsCandidate(s, a, d);
      CandidateMatches(s, a, d);
    }
  }

  /** Any split is the one the candidate search finds: the first '@' and the last dot after it. */
  lemma SplitIsCandidate(s: string, a: int, d: int)
    requires EmailSplit(s, a, d)
    ensures Candidate(s) == (a, d)
  {
    forall i | 0 <= i < a
      ensures s[i] != '@'
    {
      assert s[i] == s[..a][i];
    }
    var rest := s[a + 1..];
    assert rest[d - a - 1] == '.';
    forall j | d - a - 1 < j < |rest|
      ensures rest[j] != '.'
    {
      assert rest[j] == s[d + 1..][j - (d - a)];
    }
    LastIndexOfIs(rest, '.', d - a - 1);
  }

  lemma CandidateMatches(s: string, a: int, d: int)
    requires EmailSplit(s, a, d)
    requires Candidate(s) == (a, d)
    ensures MatchesEmailPattern(s)
  {
  }

  /** The last occurrence is the position holding `c` with no `c` after it. */
  lemma {:induction false} LastIndexOfIs(s: string, c: char, k: int)
    requires 0 <= k < |s| && s[k] == c
    requires forall j :: k < j < |s| ==> s[j] != c
    ensures LastIndexOf(s, c) == k
    decreases |s|
  {
    if k < |s| - 1 {
      var init := s[..|s| - 1];
      forall j | k < j < |init|
        ensures init[j] != c
      {
        assert init[j] == s[j];
      }
      LastIndexOfIs(init, c, k);
    }
  }

  /** Python's `EmailValidator.is_valid`. */
  predicate IsValidEmail(email: string) {
    email != "" && MatchesEmailPattern(Strip(email))
  }

  /** Python's `EmailValidator.validate`. */
  function ValidateEmail(email: string): (r: Verdict)
    ensures email == "" ==> r == Verdict(false, EmailRequired)
    ensures email != "" ==> (r.ok <==> EmailShaped(Strip(email)))
    ensures r.ok ==> r.message == EmailValid
    ensures !r.ok && email != "" ==> r.message == EmailInvalid
  {
    EmailMatchIffShaped(Strip(email));
    if email == "" then Verdict(false, EmailRequired)
    else if !MatchesEmailPattern(Strip(email)) then Verdict(false, EmailInvalid)
    else Verdict(true, EmailValid)
  }

  /** `validate` accepts exactly the addresses `is_valid` accepts. */
  lemma ValidateAgreesWithIsValid(email: string)
    ensures ValidateEmail(email).ok <==> IsValidEmail(email)
  {
  }

  /** In any split the '@' is the only one, and everything after the final dot is a letter. */
  lemma SplitHasOneAt(s: string, at: int, dot: int)
    requires EmailSplit(s, at, dot)
    ensures forall i :: 0 <= i < |s| && i != at ==> s[i] != '@'
    ensures forall i :: dot < i < |s| ==> IsAsciiLetter(s[i])
  {
    var local, mid, tld := s[..at], s[at + 1..dot], s[dot + 1..];
    forall i | 0 <= i < at
      ensures s[i] != '@'
    {
      assert s[i] == local[i];
    }
    forall i | at < i < dot
      ensures s[i] != '@'
    {
      assert s[i] == mid[i - at - 1];
    }
    forall i | dot < i < |s|
      ensures IsAsciiLetter(s[i])
    {
      assert s[i] == tld[i - dot - 1];
    }
  }

  /** `s` has exactly one '@'. */
  ghost predicate SingleAt(s: string) {
    exists a :: 0 <= a < |s| && s[a] == '@' && forall i :: 0 <= i < |s| && i != a ==> s[i] != '@'
  }

  /** `s` ends in a label of two or more ASCII letters after its last dot. */
  ghost predicate LetterLabelEnd(s: string) {
    exists d :: 0 <= d < |s| - 2 && s[d] == '.' && forall i :: d < i < |s| ==> IsAsciiLetter(s[i])
  }

  /**
    Every text the pattern accepts (for `is_valid`, the stripped address) has
    exactly one '@' and ends in a label of 2+ ASCII letters after its last dot.
   */
  lemma AcceptedEmailShape(s: string)
    requires MatchesEmailPattern(s)
    ensures SingleAt(s) && LetterLabelEnd(s)
  {
    SplitShape(s, Candidate(s).0, Candidate(s).1);
  }

  lemma SplitShape(s: string, at: int, dot: int)
    requires EmailSplit(s, at, dot)
    ensures SingleAt(s) && LetterLabelEnd(s)
  {
    SplitHasOneAt(s, at, dot);
    assert |s[dot + 1..]| >= 2;
  }

  /** Whitespace around an address does not change the verdict of a non-blank input. */
  lemma EmailSurroundingSpaceIgnored(email: string, pad1: string, pad2: string)
    requires email != ""
    requires forall i :: 0 <= i < |pad1| ==> IsSpace(pad1[i])
    requires forall i :: 0 <= i < |pad2| ==> IsSpace(pad2[i])
    requires Strip(email) == email
    ensures ValidateEmail(pad1 + email + pad2) == ValidateEmail(email)
  {
    var padded := pad1 + email + pad2;
    StripOfPadded(pad1, email, pad2);
    assert padded != "" by {
      assert |padded| >= |email|;
    }
    assert IsValidEmail(padded) == IsValidEmail(email);
  }

  /** Stripping removes exactly the whitespace padding around a text that has none of its own at the ends. */
  lemma StripOfPadded(pad1: string, s: string, pad2: string)
    requires s != "" && Strip(s) == s
    requires forall i :: 0 <= i < |pad1| ==> IsSpace(pad1[i])
    requires forall i :: 0 <= i < |pad2| ==> IsSpace(pad2[i])
    ensures Strip(pad1 + s + pad2) == s
  {
    var t := pad1 + s + pad2;
    var a, b := |pad1|, |pad1| + |s|;
    assert t[a..b] == s;
    assert t[a] == s[0] && t[b - 1] == s[|s| - 1];
    forall i | 0 <= i < a
      ensures IsSpace(t[i])
    {
      assert t[i] == pad1[i];
    }
    forall i | b <= i < |t|
      ensures IsSpace(t[i])
    {
      assert t[i] == pad2[i - b];
    }
    StripOfFramed(t, a, b);
  }

  /** An input of whitespace only is present, so it is judged by the pattern, and fails it. */
  lemma BlankEmailIsMalformed(email: string)
    requires email != "" && forall i :: 0 <= i < |email| ==> IsSpace(email[i])
    ensures ValidateEmail(email) == Verdict(false, EmailInvalid)
  {
    var s := Strip(email);
    var k := StripOffset(email);
    assert s == [];
  }

  /** A text with no whitespace at either end is its own `strip()`. */
  lemma StripUnpadded(s: string)
    requires s != [] && !IsSpace(s[0]) && !IsSpace(s[|s| - 1])
    ensures Strip(s) == s
  {
  }

  lemma EmailExampleTagged(s: string)
    requires s == "user+tag@example.co.uk"
    ensures IsValidEmail(s)
  {
    StripUnpadded(s);
    TaggedSplit(s);
    EmailMatchIffShaped(s);
  }

  /** "user+tag" @ "example.co" . "uk" */
  lemma TaggedSplit(s: string)
    requires s == "user+tag@example.co.uk"
    ensures EmailSplit(s, 8, 19)
  {
    var local, domain, tld := s[..8], s[9..19], s[20..];
    assert local == "user+tag";
    forall i | 0 <= i < |local|
      ensures IsLocalChar(local[i])
    {
    }
    assert domain == "example.co";
    forall i | 0 <= i < |domain|
      ensures IsDomainChar(domain[i])
    {
    }
    assert tld == "uk";
    assert TopLevelLabel(tld);
  }

  lemma EmailExampleNoAt(s: string)
    requires s == "sav3#ff.com"
    ensures !IsValidEmail(s)
  {
    StripUnpadded(s);
    assert IndexOf(s, '@') == |s|;
  }

  lemma EmailExampleEmptyLocal(s: string)
    requires s == "@example.com"
    ensures !IsValidEmail(s)
  {
    StripUnpadded(s);
    assert IndexOf(s, '@') == 0;
  }

  lemma EmailExampleNoDomain(s: string)
    requires s == "user@"
    ensures !IsValidEmail(s)
  {
    StripUnpadded(s);
    assert IndexOf(s, '@') == 4;
  }

  lemma EmailExampleNoAtWord(s: string)
    requires s == "invalid"
    ensures !IsValidEmail(s)
  {
    StripUnpadded(s);
    assert IndexOf(s, '@') == |s|;
  }

  /** None of the pattern's character classes holds a space, so no accepted text contains one. */
  lemma AcceptedHasNoSpace(s: string)
    ensures MatchesEmailPattern(s) ==> ' ' !in s
  {
    if MatchesEmailPattern(s) {
      var (a, d) := Candidate(s);
      forall i | 0 <= i < |s|
        ensures s[i] != ' '
      {
        if i < a {
          assert s[i] == s[..a][i];
        } else if a < i < d {
          assert s[i] == s[a + 1..d][i - a - 1];
        } else if d < i {
          assert s[i] == s[d + 1..][i - d - 1];
        }
      }
    }
  }

  /** An address with a space inside, none at its ends, is invalid. */
  lemma InnerSpaceInvalid(s: string)
    requires Strip(s) == s && ' ' in s
    ensures !IsValidEmail(s)
  {
    AcceptedHasNoSpace(s);
  }

  lemma EmailExampleSpace(s: string)
    requires s == "user name@example.com"
    ensures !IsValidEmail(s)
  {
    StripUnpadded(s);
    assert s[4] == ' ';
    InnerSpaceInvalid(s);
  }

  // ---------------------------------------------------------------------------
  // Date: strptime(s, "%Y-%m-%d") and not before today

  /** Python's `DateValidator.is_valid_format` with the default format. */
  predicate IsValidDateFormat(s: string) {
    s != "" && ParseYmd(s).Some?
  }

  /** Python's `DateValidator.validate` with the default format; `today` stands for `datetime.now().date()`. */
  function ValidateDate(s: string, today: Date): (r: Verdict)
    ensures s == "" ==> r == Verdict(false, DateRequired)
    ensures s != "" && ParseYmd(s).None? ==> r == Verdict(false, DateFormatHint)
    ensures ParseYmd(s).Some? && Before(ParseYmd(s).value, today) ==> r == Verdict(false, DatePast)
    ensures r.ok <==> ParseYmd(s).Some? && !Before(ParseYmd(s).value, today)
    ensures r.ok ==> r.message == DateValid && IsValidDateFormat(s)
  {
    if s == "" then Verdict(false, DateRequired)
    else match ParseYmd(s)
      case None => Verdict(false, DateFormatHint)
      case Some(d) => if Before(d, today) then Verdict(false, DatePast) else Verdict(true, DateValid)
  }

  /** The format check has no past-date rule: yesterday's date is well-formed yet invalid. */
  lemma FormatCheckIgnoresPast(s: string, today: Date)
    requires ParseYmd(s).Some? && Before(ParseYmd(s).value, today)
    ensures IsValidDateFormat(s) && !ValidateDate(s, today).ok
  {
  }

  lemma DateExampleSlashes()
    ensures !IsValidDateFormat("2026/02/18")
  {
    assert "2026/02/18"[4] == '/';
  }

  lemma DateExampleDayFirst()
    ensures !IsValidDateFormat("18-02-2026")
  {
    assert "18-02-2026"[..4][2] == '-';
  }

  lemma DateExampleWords()
    ensures !IsValidDateFormat("18th feb")
  {
    assert "18th feb"[..4][2] == 't';
  }

  lemma DateExampleMonth13()
    ensures !IsValidDateFormat("2026-13-01")
  {
    var s := "2026-13-01";
    assert s[6] == '3';
    assert s[5..7] == "13";
  }

  lemma DateExampleUnpadded()
    ensures ParseYmd("2026-2-5") == Some(Date(2026, 2, 5))
  {
    var s := "2026-2-5";
    assert s[6] == '-';
    assert s[5..6] == "2";
    assert s[7..] == "5";
    ShortDigitsValue("2");
    ShortDigitsValue("5");
    assert s[..4] == "2026";
    assert DigitsValue("2026") == 2026 by {
      assert "2026"[..3] == "202";
      assert "202"[..2] == "20";
      assert "20"[..1] == "2";
      assert "2"[..0] == "";
    }
  }
}
