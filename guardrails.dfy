/**
 * The input and output guardrails (src/agents/guardrails.ts): an ordered
 * chain of checks that stops at the first failure: length, unsafe
 * phrases, e-mail, phone and card patterns, then the verdict of a
 * relevance classifier.
 */
module Guardrails {
  import opened Wrappers
  import opened Text
  import opened External

  datatype GuardrailResult = GuardrailResult(passed: bool, reason: Option<string>)

  const MaxInputLength := 5000

  const UnsafeKeywords: seq<string> := [
    "ignore previous instructions",
    "system override",
    "forget your instructions",
    "prompt injection"
  ]

  const TooLongReason := "Input is too long. Please keep it under 5000 characters."
  const InjectionReason := "Request rejected due to safety policy (potential prompt injection)."
  const EmailReason := "Input contains potential Email Address. Please remove personal information."
  const PhoneReason := "Input contains potential Phone Number. Please remove personal information."
  const CardReason := "Input contains potential Financial Information. Please remove personal information."
  const IrrelevantReason := "Input does not seem related to Marketing or Ads Data analysis."
  const ClassifierErrorReason := "Unable to verify input relevance due to system error."
  const EmptyOutputReason := "Empty output received."

  function Reject(reason: string): GuardrailResult
  {
    GuardrailResult(false, Some(reason))
  }

  const Pass := GuardrailResult(true, None)

  /** The unsafe-phrase loop: does `lower` include one of `keywords`? */
  function HasKeyword(lower: string, keywords: seq<string>): (r: bool)
    ensures r <==> exists k :: 0 <= k < |keywords| && Includes(lower, keywords[k])
  {
    if keywords == [] then false
    else if Includes(lower, keywords[0]) then true
    else
      var rest := HasKeyword(lower, keywords[1..]);
      assert forall k :: 1 <= k < |keywords| ==> keywords[k] == keywords[1..][k - 1];
      rest
  }

  // Character classes of the three regular expressions (`\d` and `\w` are ASCII).

  predicate IsAsciiLetter(c: char) { 'a' <= c <= 'z' || 'A' <= c <= 'Z' }

  predicate IsAsciiDigit(c: char) { '0' <= c <= '9' }

  predicate IsWordChar(c: char) { IsAsciiLetter(c) || IsAsciiDigit(c) || c == '_' }

  predicate IsEmailLocalChar(c: char)
  {
    IsAsciiLetter(c) || IsAsciiDigit(c) || c == '.' || c == '_' || c == '%' || c == '+' || c == '-'
  }

  predicate IsEmailDomainChar(c: char) { IsAsciiLetter(c) || IsAsciiDigit(c) || c == '.' || c == '-' }

  /**
   * `[a-zA-Z0-9._%+-]+@[a-zA-Z0-9.-]+\.[a-zA-Z]{2,}` matches with its `@`
   * at `at` and its `\.` at `dot`: one local character before the `@` and
   * two letters after the dot are enough, since longer runs only extend
   * the match.
   */
  predicate EmailAt(s: string, at: int, dot: int)
  {
    && 0 < at && at + 1 < dot && dot + 2 < |s|
    && IsEmailLocalChar(s[at - 1]) && s[at] == '@'
    && (forall m | at < m < dot :: IsEmailDomainChar(s[m]))
    && s[dot] == '.' && IsAsciiLetter(s[dot + 1]) && IsAsciiLetter(s[dot + 2])
  }

  /** `emailRegex.test(s)`. */
  predicate ContainsEmail(s: string)
  {
    exists at, dot | 0 <= at < dot < |s| :: EmailAt(s, at, dot)
  }

  /** A word character sits at index `p`. */
  predicate WordAt(s: string, p: int) { 0 <= p < |s| && IsWordChar(s[p]) }

  /** `\b` holds at position `p` (between `s[p-1]` and `s[p]`). */
  predicate Boundary(s: string, p: int) { WordAt(s, p - 1) != WordAt(s, p) }

  function Sum(groups: seq<nat>): nat
  {
    if groups == [] then 0 else groups[0] + Sum(groups[1..])
  }

  /**
   * The positions where `\d{g1}[seps]?\d{g2}...` can end when it starts at
   * `i`: every group is digits, and between two groups one separator may
   * stand. All alternatives are kept, as backtracking explores them all.
   */
  function GroupEnds(s: string, i: nat, groups: seq<nat>, seps: set<char>): (r: set<nat>)
    requires i <= |s|
    ensures forall e | e in r :: i <= e <= |s|
    decreases |groups|
  {
    if groups == [] then {i}
    else if i + groups[0] <= |s| && forall m | i <= m < i + groups[0] :: IsAsciiDigit(s[m]) then
      var e := i + groups[0];
      if |groups| == 1 then {e}
      else
        GroupEnds(s, e, groups[1..], seps)
        + (if e < |s| && s[e] in seps then GroupEnds(s, e + 1, groups[1..], seps) else {})
    else {}
  }

  /** `\b` + digit groups + `\b` matches somewhere in `s`. */
  predicate ContainsDigitGroups(s: string, groups: seq<nat>, seps: set<char>)
  {
    exists i, e | 0 <= i <= |s| && 0 <= e <= |s| :: Boundary(s, i) && e in GroupEnds(s, i, groups, seps) && Boundary(s, e)
  }

  const PhoneGroups: seq<nat> := [3, 3, 4]
  const PhoneSeparators: set<char> := {'-', '.'}
  const CardGroups: seq<nat> := [4, 4, 4, 4]
  const CardSeparators: set<char> := {' ', '-'}

  /** `\b\d{3}[-.]?\d{3}[-.]?\d{4}\b` */
  predicate ContainsPhone(s: string) { ContainsDigitGroups(s, PhoneGroups, PhoneSeparators) }

  /** `\b\d{4}[ -]?\d{4}[ -]?\d{4}[ -]?\d{4}\b` */
  predicate ContainsCard(s: string) { ContainsDigitGroups(s, CardGroups, CardSeparators) }

  /**
   * The checks that run before the classifier call, in order; the first
   * failing one gives the reason. The length is counted in UTF-16 code
   * units, as `input.length` counts it; exactly 5000 units pass.
   */
  function LocalVerdict(input: string): (r: Option<string>)
    ensures r == Some(TooLongReason) <==> Utf16Length(input) > MaxInputLength
    ensures r == Some(InjectionReason) <==> Utf16Length(input) <= MaxInputLength && HasKeyword(Lower(input), UnsafeKeywords)
    ensures r == Some(EmailReason) <==>
              Utf16Length(input) <= MaxInputLength && !HasKeyword(Lower(input), UnsafeKeywords) && ContainsEmail(input)
    ensures r == Some(PhoneReason) <==>
              Utf16Length(input) <= MaxInputLength && !HasKeyword(Lower(input), UnsafeKeywords) && !ContainsEmail(input)
              && ContainsPhone(input)
    ensures r == Some(CardReason) <==>
              Utf16Length(input) <= MaxInputLength && !HasKeyword(Lower(input), UnsafeKeywords) && !ContainsEmail(input)
              && !ContainsPhone(input) && ContainsCard(input)
    ensures r.None? <==>
              Utf16Length(input) <= MaxInputLength && !HasKeyword(Lower(input), UnsafeKeywords) && !ContainsEmail(input)
              && !ContainsPhone(input) && !ContainsCard(input)
  {
    if Utf16Length(input) > MaxInputLength then Some(TooLongReason)
    else if HasKeyword(Lower(input), UnsafeKeywords) then Some(InjectionReason)
    else if ContainsEmail(input) then Some(EmailReason)
    else if ContainsPhone(input) then Some(PhoneReason)
    else if ContainsCard(input) then Some(CardReason)
    else None
  }

  const ClassifierModel := "claude-sonnet-4-5"
  const ClassifierMaxTokens := 10
  const ClassifierPrompt :=
    "You are a strict relevance classifier. \n"
    + "Your task is to determine if the user input is related to Marketing, Advertising, Data Analysis, "
    + "Business Strategy, or general pleasantries (hello, hi, etc).\n"
    + "Respond with ONLY 'YES' or 'NO'."

  /** The classifier call: the input as the only message, no history. */
  function ClassifierRequest(input: string): Request
  {
    Request(ClassifierModel, ClassifierMaxTokens, ClassifierPrompt, [Message(User, input)])
  }

  /** A text answer rejects when its trimmed, upper-cased form contains "NO". */
  predicate AnswerRejects(answer: string)
  {
    Includes(Upper(Trim(answer)), "NO")
  }

  /**
   * `validateInput(input)`, given how the classifier call ends. The local
   * checks decide first, in order; only input that passes all of them is
   * judged by the classifier: a text answer containing "NO" rejects, a
   * non-text answer passes, and a failed call rejects (fail closed).
   */
  function ValidateInput(input: string, classified: CallOutcome): (r: GuardrailResult)
    ensures !r.passed <==> r.reason.Some?
    ensures LocalVerdict(input).Some? ==> r == Reject(LocalVerdict(input).value)
    ensures Utf16Length(input) > MaxInputLength ==> r == Reject(TooLongReason)
    ensures r.passed <==> LocalVerdict(input).None? && (classified.NonText? || (classified.Text? && !AnswerRejects(classified.text)))
    ensures LocalVerdict(input).None? && classified.Fails? ==> r == Reject(ClassifierErrorReason)
    ensures LocalVerdict(input).None? && classified.Text? && AnswerRejects(classified.text) ==> r == Reject(IrrelevantReason)
  {
    match LocalVerdict(input)
    case Some(reason) => Reject(reason)
    case None =>
      match classified
      case Text(t) => if AnswerRejects(t) then Reject(IrrelevantReason) else Pass
      case NonText => Pass
      case Fails(_) => Reject(ClassifierErrorReason)
  }

  /** `validateOutput(output)`: only the empty string is rejected. */
  function ValidateOutput(output: string): (r: GuardrailResult)
    ensures r.passed <==> output != ""
    ensures !r.passed ==> r.reason == Some(EmptyOutputReason)
  {
    if output == "" then Reject(EmptyOutputReason) else Pass
  }

  /**
   * When a local check rejects, the classifier's answer does not matter:
   * the verdict is reached before the call is made.
   */
  lemma LocalRejectionIgnoresClassifier(input: string, c1: CallOutcome, c2: CallOutcome)
    requires LocalVerdict(input).Some?
    ensures ValidateInput(input, c1) == ValidateInput(input, c2)
    ensures !ValidateInput(input, c1).passed
  {
  }

  /** One of the unsafe phrases, in any letter case and anywhere in a short enough input, is rejected as an injection. */
  lemma UnsafePhraseRejected(before: string, phrase: string, after: string, k: nat, classified: CallOutcome)
    requires k < |UnsafeKeywords| && Lower(phrase) == UnsafeKeywords[k]
    requires Utf16Length(before + phrase + after) <= MaxInputLength
    ensures ValidateInput(before + phrase + after, classified) == Reject(InjectionReason)
  {
    var input := before + phrase + after;
    LowerConcat(before + phrase, after);
    LowerConcat(before, phrase);
    IncludesInfix(Lower(before), UnsafeKeywords[k], Lower(after));
    assert Lower(input) == Lower(before) + UnsafeKeywords[k] + Lower(after);
    assert HasKeyword(Lower(input), UnsafeKeywords);
  }

  /**
   * The length check counts UTF-16 code units: 2500 astral characters are
   * already 5000 units, so anything after them makes the input too long,
   * even an unsafe phrase.
   */
  lemma AstralPaddingIsTooLong(pad: string, rest: string, classified: CallOutcome)
    requires |pad| == 2500 && (forall k :: 0 <= k < |pad| ==> IsAstral(pad[k]))
    requires rest != []
    ensures ValidateInput(pad + rest, classified) == Reject(TooLongReason)
  {
    Utf16LengthAppend(pad, rest);
  }

  predicate AllDigits(s: string)
  {
    forall m | 0 <= m < |s| :: IsAsciiDigit(s[m])
  }

  /** Over a run of digits, the groups can only be taken without separators. */
  lemma {:induction false} DigitRunEnds(s: string, i: nat, groups: seq<nat>, seps: set<char>)
    requires AllDigits(s) && i <= |s|
    requires forall c | c in seps :: !IsAsciiDigit(c)
    ensures forall e | e in GroupEnds(s, i, groups, seps) :: e == i + Sum(groups)
    ensures i + Sum(groups) <= |s| ==> i + Sum(groups) in GroupEnds(s, i, groups, seps)
    decreases |groups|
  {
    if groups != [] && i + groups[0] <= |s| {
      var e := i + groups[0];
      if |groups| > 1 {
        DigitRunEnds(s, e, groups[1..], seps);
        assert e < |s| ==> s[e] !in seps;
      }
    }
  }

  /** A word character on each side of `p` means no `\b` there. */
  lemma NoBoundaryInsideDigits(s: string, p: int)
    requires AllDigits(s) && 0 < p < |s|
    ensures !Boundary(s, p)
  {
  }

  /** A string of digits holds no unsafe phrase: each of them starts with a letter. */
  lemma DigitsHoldNoKeyword(s: string)
    requires AllDigits(s)
    ensures !HasKeyword(Lower(s), UnsafeKeywords)
  {
    forall k | 0 <= k < |UnsafeKeywords|
      ensures !Includes(Lower(s), UnsafeKeywords[k])
    {
      if Includes(Lower(s), UnsafeKeywords[k]) {
        IncludesFirstChar(Lower(s), UnsafeKeywords[k]);
        assert false;
      }
    }
  }

  /** Sixteen digits hold no phone number: ten digits cannot end on a `\b` inside them. */
  lemma SixteenDigitsHoldNoPhone(s: string)
    requires |s| == 16 && AllDigits(s)
    ensures !ContainsPhone(s)
  {
    if ContainsPhone(s) {
      var i, e :| 0 <= i <= |s| && 0 <= e <= |s| && Boundary(s, i) && e in GroupEnds(s, i, PhoneGroups, PhoneSeparators) && Boundary(s, e);
      DigitRunEnds(s, i, PhoneGroups, PhoneSeparators);
      assert false;
    }
  }

  /** Sixteen digits match the card pattern as a whole. */
  lemma SixteenDigitsAreCard(s: string)
    requires |s| == 16 && AllDigits(s)
    ensures ContainsCard(s)
  {
    DigitRunEnds(s, 0, CardGroups, CardSeparators);
    assert Sum(CardGroups) == 16;
    assert Boundary(s, 0) && 16 in GroupEnds(s, 0, CardGroups, CardSeparators) && Boundary(s, 16);
  }

  /** An address such as "a@b.co" is found wherever it stands in the text. */
  lemma EmailInTextDetected(before: string, after: string)
    ensures ContainsEmail(before + "a@b.co" + after)
  {
    var s := before + "a@b.co" + after;
    var at := |before| + 1;
    assert s[at - 1] == 'a' && s[at] == '@' && s[at + 1] == 'b';
    assert s[at + 2] == '.' && s[at + 3] == 'c' && s[at + 4] == 'o';
    assert EmailAt(s, at, at + 2);
  }

  /** A last group of `g` digits at `i` ends the match at `i + g`. */
  lemma LastGroupEnds(s: string, i: nat, g: nat, seps: set<char>)
    requires i + g <= |s| && forall m | i <= m < i + g :: IsAsciiDigit(s[m])
    ensures i + g in GroupEnds(s, i, [g], seps)
  {
  }

  /** A group of digits at `i` followed by a separator leads on to the ends of the remaining groups. */
  lemma GroupThenSeparator(s: string, i: nat, groups: seq<nat>, seps: set<char>, e: nat)
    requires |groups| > 1 && i + groups[0] < |s| && s[i + groups[0]] in seps
    requires forall m | i <= m < i + groups[0] :: IsAsciiDigit(s[m])
    requires e in GroupEnds(s, i + groups[0] + 1, groups[1..], seps)
    ensures e in GroupEnds(s, i, groups, seps)
  {
  }

  /** Twelve characters in the shape ddd-ddd-dddd, with '-' or '.' as separators. */
  predicate SeparatedPhone(t: string)
  {
    && |t| == 12 && t[3] in PhoneSeparators && t[7] in PhoneSeparators
    && (forall m | 0 <= m < 3 :: IsAsciiDigit(t[m]))
    && (forall m | 4 <= m < 7 :: IsAsciiDigit(t[m]))
    && (forall m | 8 <= m < 12 :: IsAsciiDigit(t[m]))
  }

  /**
   * A separated number such as "555-123-4567" is found as a phone number
   * wherever it stands, when no word character touches it on either side.
   */
  lemma {:induction false} PhoneInTextDetected(before: string, t: string, after: string)
    requires SeparatedPhone(t)
    requires before == [] || !IsWordChar(before[|before| - 1])
    requires after == [] || !IsWordChar(after[0])
    ensures ContainsPhone(before + t + after)
  {
    var s := before + t + after;
    var i := |before|;
    assert forall m | i <= m < i + 12 :: s[m] == t[m - i];
    hide GroupEnds;
    LastGroupEnds(s, i + 8, 4, PhoneSeparators);
    GroupThenSeparator(s, i + 4, [3, 4], PhoneSeparators, i + 12);
    GroupThenSeparator(s, i, PhoneGroups, PhoneSeparators, i + 12);
    assert WordAt(s, i) && !WordAt(s, i - 1);
    assert WordAt(s, i + 11) && !WordAt(s, i + 12);
    assert Boundary(s, i) && i + 12 in GroupEnds(s, i, PhoneGroups, PhoneSeparators) && Boundary(s, i + 12);
  }

  /** "555-123-4567" has the separated phone shape. */
  lemma SamplePhoneIsSeparated()
    ensures SeparatedPhone("555-123-4567")
  {
  }

  /**
   * A bare sixteen-digit number is reported as financial information: it
   * holds no unsafe phrase and no e-mail, and the phone pattern cannot
   * match because its closing `\b` would fall between two digits.
   */
  lemma SixteenDigitsAreFinancial(s: string, classified: CallOutcome)
    requires |s| == 16 && AllDigits(s)
    ensures ValidateInput(s, classified) == Reject(CardReason)
  {
    DigitsHoldNoKeyword(s);
    assert !ContainsEmail(s);
    SixteenDigitsHoldNoPhone(s);
    SixteenDigitsAreCard(s);
  }
}
