/**
 * `optionalDigitsRule` of `src/components/validations/commonRules.ts`: an
 * optional field that, once trimmed, is either empty or ASCII digits only.
 */
module CommonRules {
  import opened Js
  import opened JsString

  /**
   * Absent, empty and blank values pass; any other value passes when its
   * trimmed form matches `/^[0-9]+$/`.
   */
  function OptionalDigits(v: Option<string>): bool {
    if v.None? || v.value == "" then true
    else
      var trimmed := Trim(v.value);
      if trimmed == "" then true else DigitsRegex(trimmed)
  }

  /** The rule in terms of the value: blank passes, anything else is judged on its trimmed form. */
  lemma OptionalDigitsMeaning(v: Option<string>)
    ensures v.None? || v == Some("") ==> OptionalDigits(v)
    ensures v.Some? && AllWhitespace(v.value) ==> OptionalDigits(v)
    ensures v.Some? && !AllWhitespace(v.value) ==> (OptionalDigits(v) <==> DigitsRegex(Trim(v.value)))
  {
  }

  /** Digits with whitespace on either side pass. */
  lemma PaddedDigitsAccepted(p: string, d: string, q: string)
    requires AllWhitespace(p) && AllWhitespace(q) && DigitsRegex(d)
    ensures OptionalDigits(Some(p + d + q))
  {
    DigitsAreTrimmed(d);
    TrimPadded(p, d, q);
  }

  /**
   * A trimmed value with whitespace inside it is rejected, whatever padding
   * surrounds it: digits split by a space do not pass.
   */
  lemma InteriorWhitespaceRejected(p: string, d: string, q: string, i: nat)
    requires AllWhitespace(p) && AllWhitespace(q) && IsTrimmed(d)
    requires i < |d| && IsWhitespace(d[i])
    ensures !OptionalDigits(Some(p + d + q))
  {
    TrimPadded(p, d, q);
    RejectedByTrimmedForm(p + d + q, d, i);
  }

  lemma RejectedByTrimmedForm(s: string, d: string, i: nat)
    requires Trim(s) == d && i < |d| && !IsAsciiDigit(d[i])
    ensures !OptionalDigits(Some(s))
  {
  }
}
