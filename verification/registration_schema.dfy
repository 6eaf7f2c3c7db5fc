/**
 * `registrationSchema` of `src/components/validations/registrationSchema.ts`:
 * the carer's sign-up form. Every rule is a predicate on one optional string
 * (a field the form did not send is `None`); the schema adds the
 * password-confirmation check of its `superRefine`.
 */
module RegistrationSchema {
  import opened Js
  import opened JsString
  import CommonRules

  /** A required string: present, at least one character, no trim applied. */
  function Required(v: Option<string>): (valid: bool)
    ensures valid <==> v.Some? && v.value != ""
  {
    v.Some? && |v.value| >= 1
  }

  /** A required string of exactly `n` ASCII digits, no trim applied. */
  function ExactDigits(v: Option<string>, n: nat): (valid: bool)
    ensures valid ==> Required(v) && IsTrimmed(v.value)
  {
    v.Some? && |v.value| >= 1 && |v.value| == n && DigitsRegex(v.value)
  }

  /** `phoneRule`: a mobile number of exactly 10 digits. */
  function PhoneRule(v: Option<string>): bool {
    ExactDigits(v, 10)
  }

  /** `homePhoneRule`: absent or blank, or 10 digits once trimmed. */
  function HomePhoneRule(v: Option<string>): (valid: bool)
    ensures valid <==> CommonRules.OptionalDigits(v) && (v.None? || Trim(v.value) == "" || |Trim(v.value)| == 10)
  {
    var digits := if v.None? || v.value == "" then true
                  else var t := Trim(v.value); if t == "" then true else DigitsRegex(t);
    var length := if v.None? || v.value == "" then true
                  else var t := Trim(v.value); if t == "" then true else |t| == 10;
    digits && length
  }

  /** `zipCodeRule`: exactly 5 digits. */
  function ZipCodeRule(v: Option<string>): bool {
    ExactDigits(v, 5)
  }

  /** `users_pin`: exactly 4 digits. */
  function PinRule(v: Option<string>): bool {
    ExactDigits(v, 4)
  }

  /** The form's fields, named after the source's keys. */
  datatype RegistrationForm = RegistrationForm(
    fname: Option<string>,
    sname: Option<string>,
    passwd: Option<string>,
    passwdConfirm: Option<string>,
    pin: Option<string>,
    number: Option<string>,
    moo: Option<string>,
    road: Option<string>,
    tubon: Option<string>,
    amphur: Option<string>,
    province: Option<string>,
    postcode: Option<string>,
    tel1: Option<string>,
    telHome: Option<string>)

  /** The keys an issue can be reported on. */
  datatype Field =
    | Fname | Sname | Passwd | PasswdConfirm | Pin | Moo
    | Tubon | Amphur | Province | Postcode | Tel1 | TelHome

  const AllFields: set<Field> :=
    {Fname, Sname, Passwd, PasswdConfirm, Pin, Moo, Tubon, Amphur, Province, Postcode, Tel1, TelHome}

  lemma AllFieldsComplete(k: Field)
    ensures k in AllFields
  {
  }

  /** The rule of one key holds. */
  predicate Passes(f: RegistrationForm, k: Field) {
    match k
    case Fname => Required(f.fname)
    case Sname => Required(f.sname)
    case Passwd => Required(f.passwd)
    case PasswdConfirm => Required(f.passwdConfirm)
    case Pin => PinRule(f.pin)
    case Moo => CommonRules.OptionalDigits(f.moo)
    case Tubon => Required(f.tubon)
    case Amphur => Required(f.amphur)
    case Province => Required(f.province)
    case Postcode => ZipCodeRule(f.postcode)
    case Tel1 => PhoneRule(f.tel1)
    case TelHome => HomePhoneRule(f.telHome)
  }

  /** A form is accepted when every field rule holds and the two passwords agree. */
  predicate Valid(f: RegistrationForm) {
    && Required(f.fname) && Required(f.sname)
    && Required(f.passwd) && Required(f.passwdConfirm)
    && PinRule(f.pin)
    && CommonRules.OptionalDigits(f.moo)
    && Required(f.tubon) && Required(f.amphur) && Required(f.province)
    && ZipCodeRule(f.postcode) && PhoneRule(f.tel1) && HomePhoneRule(f.telHome)
    && f.passwd == f.passwdConfirm
  }

  /** The keys whose own rule fails. */
  function FieldIssues(f: RegistrationForm): set<Field> {
    set k | k in AllFields && !Passes(f, k)
  }

  /**
   * A required key that is missing altogether. Its issue aborts the object's
   * parse, and the `superRefine` that compares the passwords does not run.
   */
  predicate Aborts(f: RegistrationForm) {
    || f.fname.None? || f.sname.None? || f.passwd.None? || f.passwdConfirm.None?
    || f.pin.None? || f.tubon.None? || f.amphur.None? || f.province.None?
    || f.postcode.None? || f.tel1.None?
  }

  /** A missing required key fails its own rule. */
  lemma AbortsHasFieldIssue(f: RegistrationForm)
    ensures Aborts(f) ==> FieldIssues(f) != {}
  {
    var k :=
      if f.fname.None? then Fname else if f.sname.None? then Sname
      else if f.passwd.None? then Passwd else if f.passwdConfirm.None? then PasswdConfirm
      else if f.pin.None? then Pin else if f.tubon.None? then Tubon
      else if f.amphur.None? then Amphur else if f.province.None? then Province
      else if f.postcode.None? then Postcode else Tel1;
    assert Aborts(f) ==> k in FieldIssues(f);
  }

  /**
   * The keys with issues after `safeParse`: the field rules, and the password
   * mismatch reported on `users_passwd_comfirm` when the parse got as far as
   * the refinement.
   */
  function Issues(f: RegistrationForm): (issues: set<Field>)
    ensures FieldIssues(f) <= issues
    ensures issues - FieldIssues(f) <= {PasswdConfirm}
  {
    FieldIssues(f) + (if !Aborts(f) && f.passwd != f.passwdConfirm then {PasswdConfirm} else {})
  }

  /** The form is accepted exactly when `safeParse` reports no issue. */
  lemma ValidIffNoIssues(f: RegistrationForm)
    ensures Valid(f) <==> Issues(f) == {}
  {
    if Issues(f) == {} {
      forall k: Field ensures Passes(f, k) {
        AllFieldsComplete(k);
        assert k !in FieldIssues(f);
      }
      AbortsHasFieldIssue(f);
      assert PasswdConfirm !in Issues(f);
      assert Passes(f, Fname) && Passes(f, Sname) && Passes(f, Passwd) && Passes(f, PasswdConfirm);
      assert Passes(f, Pin) && Passes(f, Moo) && Passes(f, Tubon) && Passes(f, Amphur);
      assert Passes(f, Province) && Passes(f, Postcode) && Passes(f, Tel1) && Passes(f, TelHome);
    }
  }

  /**
   * Differing passwords are reported on the confirmation key whenever every
   * required key is present, even if other fields fail.
   */
  lemma MismatchReportedOnConfirm(f: RegistrationForm)
    requires !Aborts(f) && f.passwd != f.passwdConfirm
    ensures PasswdConfirm in Issues(f) && !Valid(f)
  {
  }

  /** A missing required key hides the mismatch, yet the form stays rejected. */
  lemma MissingKeyHidesMismatch(f: RegistrationForm)
    requires Aborts(f) && Required(f.passwdConfirm)
    ensures PasswdConfirm !in Issues(f)
    ensures Issues(f) != {}
  {
    AbortsHasFieldIssue(f);
  }

  /** `homePhoneRule` is `optionalDigitsRule` with a length check on the trimmed text. */
  lemma HomePhoneAcceptsPaddedNumber(p: string, d: string, q: string)
    requires AllWhitespace(p) && AllWhitespace(q) && DigitsRegex(d) && |d| == 10
    ensures HomePhoneRule(Some(p + d + q))
    ensures p + q != "" ==> !PhoneRule(Some(p + d + q))
  {
    DigitsAreTrimmed(d);
    TrimPadded(p, d, q);
    CommonRules.PaddedDigitsAccepted(p, d, q);
    if p + q != "" {
      assert |p + d + q| > 10;
    }
  }

  /** Names and address parts are not trimmed: a single space passes. */
  lemma BlankNamePasses()
    ensures Required(Some(" "))
  {
  }
}
