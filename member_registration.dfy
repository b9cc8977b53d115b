/** The member registration form
    (frontend/src/pages/member-registration-modal/components/RegistrationForm.jsx):
    the same shape as the youth form, with a city instead of age, education
    and experience. The local data and its change handlers are those of
    FormRules. */
module MemberRegistration {
  import opened Wrappers
  import Text
  import opened FormRules

  /** The text fields of the form's local data. */
  const TextFields: set<Field> := {Name, Village, City, PhoneNumber}

  const CityRequired: string := "City name is required"

  /** All checks pass. */
  predicate Passes(d: FormData) {
    && NameError(Value(d, Name)).None?
    && !Blank(Value(d, Village))
    && !Blank(Value(d, City))
    && IsMobile(Value(d, PhoneNumber))
    && d.termsAccepted
  }

  /** `validateForm`: each check in turn sets its message (or nothing) under
      its key; the form is valid when no key was set. */
  method ValidateForm(d: FormData) returns (errors: Errors, valid: bool)
    ensures errors.name == NameError(Value(d, Name))
    ensures errors.village == RequiredError(Value(d, Village), VillageRequired)
    ensures errors.city == RequiredError(Value(d, City), CityRequired)
    ensures errors.phoneNumber == PhoneError(Value(d, PhoneNumber))
    ensures errors.termsAccepted.Some? <==> !d.termsAccepted
    ensures errors.termsAccepted.Some? ==> errors.termsAccepted.value == TermsRequired
    ensures errors.age.None? && errors.education.None? && errors.experience.None?
    ensures valid <==> NoKeys(errors)
    ensures valid <==> Passes(d)
  {
    var name := Value(d, Name);
    var village := Value(d, Village);
    var city := Value(d, City);
    var phone := Value(d, PhoneNumber);
    errors := NoErrors;
    errors := errors.(name := NameError(name));
    errors := errors.(village := RequiredError(village, VillageRequired));
    errors := errors.(city := RequiredError(city, CityRequired));
    errors := errors.(phoneNumber := PhoneError(phone));
    if !d.termsAccepted {
      errors := errors.(termsAccepted := Some(TermsRequired));
    }
    valid := errors == NoErrors;
    NoKeysIffEmpty(errors);
  }

  /** `handleSubmit`: the data goes on only when the form is valid. */
  method HandleSubmit(d: FormData) returns (errors: Errors, completed: Option<FormData>)
    ensures completed.Some? <==> Passes(d)
    ensures completed.Some? ==> completed.value == d
    ensures completed.Some? <==> NoKeys(errors)
  {
    var valid;
    errors, valid := ValidateForm(d);
    if !valid {
      return errors, None;
    }
    completed := Some(d);
  }

  /** A form whose phone came through the input is valid exactly when the
      other checks pass and the typed text held ten digits, the first 6 to 9. */
  lemma PhoneInputThenValidate(d: FormData, errors: Errors, raw: string)
    ensures Passes(PhoneInput(d, errors, raw).0) <==>
              && NameError(Value(d, Name)).None? && !Blank(Value(d, Village)) && !Blank(Value(d, City))
              && d.termsAccepted
              && |Text.KeepDigits(raw)| >= 10 && '6' <= Text.KeepDigits(raw)[0] <= '9'
  {
    SanitisedPhoneValid(raw);
  }
}
