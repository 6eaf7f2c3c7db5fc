/**
 * `elderlyRegistrationSchema` of
 * `src/components/validations/elderlyRegistrationSchema.ts`: the form that
 * registers a dependent person. Unlike the carer's form, the mobile number is
 * optional and trimmed, and the form carries a birthday and two numeric
 * choices.
 */
module ElderlySchema {
  import opened Js
  import opened JsString
  import CommonRules
  import R = RegistrationSchema

  /**
   * `phoneRule` of this file: absent or blank, or 10 digits once trimmed.
   * It is the same rule as `homePhoneRule`, under another message.
   */
  function PhoneRule(v: Option<string>): (valid: bool)
    ensures valid <==> R.HomePhoneRule(v)
  {
    if v.None? || v.value == "" then true
    else
      var trimmed := Trim(v.value);
      trimmed == "" || (DigitsRegex(trimmed) && |trimmed| == 10)
  }

  /**
   * `z.date()`: a `Date` object whose time value is a number; an Invalid
   * Date, whose time is NaN, is refused. The value is the time in
   * milliseconds, `None` when the key is missing.
   */
  predicate DateRule(v: Option<Num>) {
    v.Some? && v.value.Real?
  }

  /** `z.number().min(1)`: a number that is not NaN and is at least 1. */
  predicate ChoiceRule(v: Option<Num>) {
    v.Some? && v.value.Real? && v.value.x >= 1.0
  }

  datatype ElderlyForm = ElderlyForm(
    fname: Option<string>,
    sname: Option<string>,
    birthday: Option<Num>,
    genderId: Option<Num>,
    marryId: Option<Num>,
    number: Option<string>,
    moo: Option<string>,
    road: Option<string>,
    tubon: Option<string>,
    amphur: Option<string>,
    province: Option<string>,
    postcode: Option<string>,
    tel1: Option<string>,
    telHome: Option<string>,
    disease: Option<string>,
    drug: Option<string>)

  /** Every field rule holds; the schema has no cross-field check. */
  predicate Valid(f: ElderlyForm) {
    && R.Required(f.fname) && R.Required(f.sname)
    && DateRule(f.birthday)
    && ChoiceRule(f.genderId) && ChoiceRule(f.marryId)
    && CommonRules.OptionalDigits(f.moo)
    && R.Required(f.tubon) && R.Required(f.amphur) && R.Required(f.province)
    && R.ZipCodeRule(f.postcode) && PhoneRule(f.tel1) && R.HomePhoneRule(f.telHome)
  }

  /**
   * Every mobile number the carer's form accepts, this form accepts too;
   * the converse fails for a missing, blank or padded number.
   */
  lemma PhoneRuleWeakerThanRegistration(v: Option<string>)
    ensures R.PhoneRule(v) ==> PhoneRule(v)
    ensures PhoneRule(None) && !R.PhoneRule(None)
    ensures PhoneRule(Some(" ")) && !R.PhoneRule(Some(" "))
  {
    if R.PhoneRule(v) {
      DigitsAreTrimmed(v.value);
      TrimOfTrimmed(v.value);
    }
    assert AllWhitespace(" ");
  }

  /** The free-text keys (house number, road, diseases, drugs) never make the form fail. */
  lemma FreeTextUnchecked(f: ElderlyForm, number: Option<string>, road: Option<string>, disease: Option<string>, drug: Option<string>)
    ensures Valid(f) <==> Valid(f.(number := number, road := road, disease := disease, drug := drug))
  {
  }

  /** The gender and marital-status choices: NaN, a missing key and values below 1 fail. */
  lemma ChoiceBounds(x: real)
    ensures ChoiceRule(Some(Real(x))) <==> x >= 1.0
    ensures !ChoiceRule(Some(NaN)) && !ChoiceRule(None)
  {
  }
}
