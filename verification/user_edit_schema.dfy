/**
 * `userEditSchema` of `src/components/validations/cuserinfoSchema.ts`: the
 * carer's profile form. It is the sign-up form without the two password keys;
 * its `phoneRule`, `homePhoneRule` and `zipCodeRule` are the same rules as
 * the sign-up form's and are taken from `RegistrationSchema`.
 */
module UserEditSchema {
  import opened Js
  import CommonRules
  import R = RegistrationSchema

  datatype UserEditForm = UserEditForm(
    fname: Option<string>,
    sname: Option<string>,
    pin: Option<string>,
    number: Option<string>,
    moo: Option<string>,
    road: Option<string>,
    tubon: Option<string>,
    amphur: Option<string>,
    province: Option<string>,
    postcode: Option<string>,
    tel1: Option<string>,
    telHome: Option<string>)

  /** Every field rule holds; there is no cross-field check. */
  predicate Valid(f: UserEditForm) {
    && R.Required(f.fname) && R.Required(f.sname)
    && R.PinRule(f.pin)
    && CommonRules.OptionalDigits(f.moo)
    && R.Required(f.tubon) && R.Required(f.amphur) && R.Required(f.province)
    && R.ZipCodeRule(f.postcode) && R.PhoneRule(f.tel1) && R.HomePhoneRule(f.telHome)
  }

  /** The profile part of a sign-up form: every key but the two passwords. */
  function Profile(f: R.RegistrationForm): UserEditForm {
    UserEditForm(f.fname, f.sname, f.pin, f.number, f.moo, f.road,
                 f.tubon, f.amphur, f.province, f.postcode, f.tel1, f.telHome)
  }

  /**
   * The sign-up form is accepted exactly when its profile part passes the
   * profile form and the password is present, non-empty and confirmed.
   */
  lemma RegistrationIsProfilePlusPassword(f: R.RegistrationForm)
    ensures R.Valid(f) <==> Valid(Profile(f)) && R.Required(f.passwd) && f.passwd == f.passwdConfirm
  {
  }
}
