/**
 * The answer validators shared by the chat dialogue and the questionnaire form:
 * JavaScript's whitespace class and `trim`, the email pattern
 * `^[^\s@]+@[^\s@]+\.[^\s@]+$`, the ZIP pattern `^\d{5}$` and the per-field
 * validators with their error messages.
 */
module Validators {
  import opened ExperimentTypes

  // ---------------------------------------------------------------------------
  // Whitespace and trim
  // ---------------------------------------------------------------------------

  /** ECMAScript WhiteSpace and LineTerminator: the class `\s` and what `trim` strips. */
  predicate IsWhitespace(c: char) {
    c == '\t' || c == '\n' || c == '\U{000B}' || c == '\U{000C}' || c == '\r' ||
    c == ' ' || c == '\U{00A0}' || c == '\U{1680}' ||
    ('\U{2000}' <= c <= '\U{200A}') ||
    c == '\U{2028}' || c == '\U{2029}' || c == '\U{202F}' || c == '\U{205F}' ||
    c == '\U{3000}' || c == '\U{FEFF}'
  }

  ghost predicate AllWhitespace(s: string) {
    forall k :: 0 <= k < |s| ==> IsWhitespace(s[k])
  }

  /** Drops the leading whitespace: the result is the shortest suffix reached by doing so. */
  function TrimStart(s: string): (r: string)
    ensures |r| <= |s| && r == s[|s| - |r|..]
    ensures AllWhitespace(s[..|s| - |r|])
    ensures r != [] ==> !IsWhitespace(r[0])
  {
    if |s| > 0 && IsWhitespace(s[0]) then
      var r := TrimStart(s[1..]);
      assert s[1..][..|s| - 1 - |r|] == s[1..|s| - |r|];
      r
    else s
  }

  /** Drops the trailing whitespace. */
  function TrimEnd(s: string): (r: string)
    ensures |r| <= |s| && r == s[..|r|]
    ensures AllWhitespace(s[|r|..])
    ensures r != [] ==> !IsWhitespace(r[|r| - 1])
  {
    if |s| > 0 && IsWhitespace(s[|s| - 1]) then
      var r := TrimEnd(s[..|s| - 1]);
      assert s[..|s| - 1][|r|..] == s[|r|..|s| - 1];
      r
    else s
  }

  /** `String.prototype.trim`. */
  function Trim(s: string): string {
    TrimEnd(TrimStart(s))
  }

  /**
   * `Trim(s)` is the slice of `s` left after cutting whitespace from both ends,
   * and when it is not empty it neither starts nor ends with whitespace.
   */
  lemma TrimIsInnerSlice(s: string)
    ensures exists i, j :: 0 <= i <= j <= |s| && Trim(s) == s[i..j] &&
                           AllWhitespace(s[..i]) && AllWhitespace(s[j..])
    ensures Trim(s) != [] ==> !IsWhitespace(Trim(s)[0]) && !IsWhitespace(Trim(s)[|Trim(s)| - 1])
  {
    var t := TrimStart(s);
    var i := |s| - |t|;
    var j := i + |TrimEnd(t)|;
    assert Trim(s) == s[i..j];
    assert s[j..] == t[|TrimEnd(t)|..];
  }

  /** Trim yields the empty string exactly for the all-whitespace inputs. */
  lemma TrimEmptyIff(s: string)
    ensures Trim(s) == [] <==> AllWhitespace(s)
  {
    var t := TrimStart(s);
    if Trim(s) == [] {
      assert AllWhitespace(t) by { assert t[|TrimEnd(t)|..] == t; }
      assert t == [];
      assert s[..|s|] == s;
    }
  }

  /** Trimming twice is trimming once. */
  lemma TrimIdempotent(s: string)
    ensures Trim(Trim(s)) == Trim(s)
  {
    var r := Trim(s);
    if r != [] {
      TrimIsInnerSlice(s);
      assert TrimStart(r) == r;
      assert TrimEnd(r) == r;
    }
  }

  // ---------------------------------------------------------------------------
  // Email: ^[^\s@]+@[^\s@]+\.[^\s@]+$
  // ---------------------------------------------------------------------------

  /** A character of the class `[^\s@]`. */
  predicate IsAddressChar(c: char) {
    !IsWhitespace(c) && c != '@'
  }

  /** `t` matches `[^\s@]+`. */
  ghost predicate AddressRun(t: string) {
    |t| > 0 && forall k :: 0 <= k < |t| ==> IsAddressChar(t[k])
  }

  /** The email pattern matches `s` with its `@` at `i` and the literal `.` at `j`. */
  ghost predicate EmailSplit(s: string, i: int, j: int) {
    0 < i < j < |s| &&
    AddressRun(s[..i]) && s[i] == '@' && AddressRun(s[i + 1..j]) && s[j] == '.' && AddressRun(s[j + 1..])
  }

  /** The regular expression's meaning: some way of splitting `s` matches it. */
  ghost predicate MatchesEmailPattern(s: string) {
    exists i, j :: EmailSplit(s, i, j)
  }

  /** Index of the first occurrence of `c`. */
  function IndexOf(s: string, c: char): (r: nat)
    requires c in s
    ensures r < |s| && s[r] == c && c !in s[..r]
  {
    if s[0] == c then 0
    else
      assert c in s[1..] by { var k :| 0 <= k < |s| && s[k] == c; assert s[1..][k - 1] == c; }
      var r := 1 + IndexOf(s[1..], c);
      assert s[..r] == [s[0]] + s[1..][..r - 1];
      r
  }

  /**
   * The shape the pattern describes, checked without search: no whitespace,
   * exactly one `@` and not at the start, and a `.` in the part after the `@`
   * that is neither that part's first nor the string's last character.
   */
  predicate IsEmailShaped(s: string) {
    (forall k | 0 <= k < |s| :: !IsWhitespace(s[k])) &&
    '@' in s &&
    var a := IndexOf(s, '@');
    '@' !in s[a + 1..] && 0 < a && a + 3 < |s| && '.' in s[a + 2..|s| - 1]
  }

  /** The search-free check decides exactly the regular expression. */
  lemma EmailShapeMatchesPattern(s: string)
    ensures IsEmailShaped(s) <==> MatchesEmailPattern(s)
  {
    if MatchesEmailPattern(s) {
      var i, j :| EmailSplit(s, i, j);
      assert '@' in s;
      var a := IndexOf(s, '@');
      assert a == i;
      forall k | 0 <= k < |s| ensures !IsWhitespace(s[k]) {
        if k < i { assert s[k] == s[..i][k]; }
        else if i < k < j { assert s[k] == s[i + 1..j][k - i - 1]; }
        else if j < k { assert s[k] == s[j + 1..][k - j - 1]; }
      }
      assert '@' !in s[a + 1..] by {
        forall k | a + 1 <= k < |s| ensures s[k] != '@' {
          if k < j { assert s[k] == s[i + 1..j][k - i - 1]; }
          else if j < k { assert s[k] == s[j + 1..][k - j - 1]; }
        }
      }
      assert s[a + 2..|s| - 1][j - a - 2] == '.';
    }
    if IsEmailShaped(s) {
      var a := IndexOf(s, '@');
      var m :| 0 <= m < |s[a + 2..|s| - 1]| && s[a + 2..|s| - 1][m] == '.';
      var j := a + 2 + m;
      assert s[j] == '.';
      forall k | 0 <= k < |s| && k != a ensures IsAddressChar(s[k]) {
        if k < a {
          assert s[k] == s[..a][k];
        } else {
          assert s[k] == s[a + 1..][k - a - 1];
        }
      }
      assert EmailSplit(s, a, j);
    }
  }

  // ---------------------------------------------------------------------------
  // ZIP: ^\d{5}$
  // ---------------------------------------------------------------------------

  /** `\d`: the ASCII decimal digits only. */
  predicate IsDigit(c: char) {
    '0' <= c <= '9'
  }

  predicate IsDigitString(s: string) {
    forall k | 0 <= k < |s| :: IsDigit(s[k])
  }

  /** `^\d{5}$`. */
  predicate IsZip(s: string) {
    |s| == 5 && IsDigitString(s)
  }

  function Pow10(n: nat): (p: nat)
    ensures p >= 1
  {
    if n == 0 then 1 else 10 * Pow10(n - 1)
  }

  function DigitChar(d: nat): char
    requires d < 10
  {
    ['0', '1', '2', '3', '4', '5', '6', '7', '8', '9'][d]
  }

  function DigitValue(c: char): (d: nat)
    requires IsDigit(c)
    ensures d < 10 && DigitChar(d) == c
  {
    if c == '0' then 0 else if c == '1' then 1 else if c == '2' then 2
    else if c == '3' then 3 else if c == '4' then 4 else if c == '5' then 5
    else if c == '6' then 6 else if c == '7' then 7 else if c == '8' then 8 else 9
  }

  /** `n` written in decimal with exactly `width` digits, zero-padded on the left. */
  function PaddedDecimal(n: nat, width: nat): (s: string)
    ensures |s| == width && IsDigitString(s)
  {
    if width == 0 then [] else PaddedDecimal(n / 10, width - 1) + [DigitChar(n % 10)]
  }

  /** The number a digit string denotes. */
  function DecimalValue(s: string): (v: nat)
    requires IsDigitString(s)
  {
    if s == [] then 0 else 10 * DecimalValue(s[..|s| - 1]) + DigitValue(s[|s| - 1])
  }

  lemma {:induction false} DecimalValueBound(s: string)
    requires IsDigitString(s)
    ensures DecimalValue(s) < Pow10(|s|)
  {
    if s != [] {
      DecimalValueBound(s[..|s| - 1]);
    }
  }

  lemma {:induction false} ParsePadded(n: nat, width: nat)
    requires n < Pow10(width)
    ensures DecimalValue(PaddedDecimal(n, width)) == n
  {
    if width > 0 {
      ParsePadded(n / 10, width - 1);
      var s := PaddedDecimal(n, width);
      assert s[..|s| - 1] == PaddedDecimal(n / 10, width - 1);
      assert DigitValue(DigitChar(n % 10)) == n % 10;
    }
  }

  lemma {:induction false} PadParsed(s: string)
    requires IsDigitString(s)
    ensures PaddedDecimal(DecimalValue(s), |s|) == s
  {
    if s != [] {
      var init := s[..|s| - 1];
      var v := DecimalValue(s);
      PadParsed(init);
      assert v / 10 == DecimalValue(init) && v % 10 == DigitValue(s[|s| - 1]);
      assert s == init + [s[|s| - 1]];
    }
  }

  /** The accepted ZIP codes are exactly the five-digit zero-padded renderings of 0..99999. */
  lemma ZipIsPaddedNumber(s: string)
    ensures IsZip(s) <==> exists n: nat :: n < 100000 && s == PaddedDecimal(n, 5)
  {
    assert Pow10(5) == 100000;
    if IsZip(s) {
      DecimalValueBound(s);
      PadParsed(s);
      assert s == PaddedDecimal(DecimalValue(s), 5);
    }
  }

  /** A five-digit code reads back as the number it was rendered from. */
  lemma ZipRoundTrip(n: nat)
    requires n < 100000
    ensures IsZip(PaddedDecimal(n, 5)) && DecimalValue(PaddedDecimal(n, 5)) == n
  {
    assert Pow10(5) == 100000;
    ParsePadded(n, 5);
  }

  // ---------------------------------------------------------------------------
  // Per-field validators: an error message, or None when the answer is accepted
  // ---------------------------------------------------------------------------

  const EmailRequired := "Email is required"
  const EmailInvalid := "Please enter a valid email address"
  const NameRequired := "Name is required"
  const ZipRequired := "ZIP code is required"
  const ZipInvalid := "Please enter a valid 5-digit ZIP code"
  const PositionRequired := "Position is required"
  const WorkPreferenceRequired := "Please select a work preference"
  const SalaryRangeRequired := "Please select a salary range"

  function ValidateEmail(v: string): (r: Option<string>)
    ensures r == None <==> MatchesEmailPattern(v)
    ensures v == "" ==> r == Some(EmailRequired)
    ensures v != "" && !MatchesEmailPattern(v) ==> r == Some(EmailInvalid)
  {
    EmailShapeMatchesPattern(v);
    if v == "" then Some(EmailRequired)
    else if !IsEmailShaped(v) then Some(EmailInvalid)
    else None
  }

  /** Name and position: anything whose trim is non-empty. */
  function ValidateRequiredText(v: string, message: string): (r: Option<string>)
    ensures r == None <==> !AllWhitespace(v)
    ensures r != None ==> r == Some(message)
  {
    TrimEmptyIff(v);
    if v == "" || |Trim(v)| == 0 then Some(message) else None
  }

  function ValidateZip(v: string): (r: Option<string>)
    ensures r == None <==> IsZip(v)
    ensures v == "" ==> r == Some(ZipRequired)
    ensures v != "" && !IsZip(v) ==> r == Some(ZipInvalid)
  {
    if v == "" then Some(ZipRequired)
    else if !IsZip(v) then Some(ZipInvalid)
    else None
  }

  /** The radio and select questions: only non-emptiness is checked, not membership in the options. */
  function ValidateSelection(v: string, message: string): (r: Option<string>)
    ensures r == None <==> v != ""
    ensures r != None ==> r == Some(message)
  {
    if v == "" then Some(message) else None
  }

  /** The validator attached to each field's question. */
  function Validate(f: Field, v: string): Option<string> {
    match f
    case Email => ValidateEmail(v)
    case Name => ValidateRequiredText(v, NameRequired)
    case ZipCode => ValidateZip(v)
    case Position => ValidateRequiredText(v, PositionRequired)
    case WorkPreference => ValidateSelection(v, WorkPreferenceRequired)
    case SalaryRange => ValidateSelection(v, SalaryRangeRequired)
  }

  /** What each field's validator accepts, stated without the validators. */
  ghost predicate Acceptable(f: Field, v: string) {
    match f
    case Email => MatchesEmailPattern(v)
    case ZipCode => IsZip(v)
    case Name => !AllWhitespace(v)
    case Position => !AllWhitespace(v)
    case WorkPreference => v != ""
    case SalaryRange => v != ""
  }

  /** A validator rejects with exactly one non-empty message when, and only when, the answer is unacceptable. */
  lemma ValidateAccepts(f: Field, v: string)
    ensures Validate(f, v) == None <==> Acceptable(f, v)
    ensures Validate(f, v) != None ==> Validate(f, v).value != ""
  {
  }
}
