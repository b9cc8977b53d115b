/** The youth-leadership registration form
    (frontend/src/pages/youth-leadership-program-modal/components/RegistrationForm.jsx):
    its text fields, the check-by-check validation that fills the error
    dictionary, and submission. The local data and its change handlers are
    those of FormRules. */
module YouthRegistration {
  import opened Wrappers
  import Text
  import opened FormRules

  /** The text fields of the form's local data. */
  const TextFields: set<Field> := {Name, Village, PhoneNumber, Age, Education, Experience}

  const EducationRequired: string := "Education information is required"

  /** All checks pass; experience is not among them. */
  predicate Passes(d: FormData) {
    && NameError(Value(d, Name)).None?
    && !Blank(Value(d, Village))
    && IsMobile(Value(d, PhoneNumber))
    && AgeError(Value(d, Age)).None?
    && !Blank(Value(d, Education))
    && d.termsAccepted
  }

  /** `validateForm`: each check in turn sets its message (or nothing) under
      its key; the form is valid when no key was set. */
  method ValidateForm(d: FormData) returns (errors: Errors, valid: bool)
    ensures errors.name == NameError(Value(d, Name))
    ensures errors.village == RequiredError(Value(d, Village), VillageRequired)
    ensures errors.phoneNumber == PhoneError(Value(d, PhoneNumber))
    ensures errors.age == AgeError(Value(d, Age))
    ensures errors.education == RequiredError(Value(d, Education), EducationRequired)
    ensures errors.termsAccepted.Some? <==> !d.termsAccepted
    ensures errors.termsAccepted.Some? ==> errors.termsAccepted.value == TermsRequired
    ensures errors.city.None? && errors.experience.None?
    ensures valid <==> NoKeys(errors)
    ensures valid <==> Passes(d)
  {
    var name := Value(d, Name);
    var village := Value(d, Village);
    var phone := Value(d, PhoneNumber);
    var age := Value(d, Age);
    var education := Value(d, Education);
    errors := NoErrors;
    errors := errors.(name := NameError(name));
    errors := errors.(village := RequiredError(village, VillageRequired));
    errors := errors.(phoneNumber := PhoneError(phone));
    errors := errors.(age := AgeError(age));
    errors := errors.(education := RequiredError(education, EducationRequired));
    if !d.termsAccepted {
      errors := errors.(termsAccepted := Some(TermsRequired));
    }
    valid := errors == NoErrors;
    NoKeysIffEmpty(errors);
  }

  /** `handleSubmit`: the data goes on only when the form is valid. */
  method HandleSubmit(d: FormData) returns (errors: Errors, completed: Option<FormData>)
    ensures completed.Some? <==> Passes(d)
    ensures completed.Some? ==> completed.value == d
    ensures completed.Some? <==> NoKeys(errors)
  {
    var valid;
    errors, valid := ValidateForm(d);
    if !valid {
      return errors, None;
    }
    completed := Some(d);
  }

  /** A form whose phone came through the input is valid exactly when the
      other checks pass and the typed text held ten digits, the first 6 to 9. */
  lemma PhoneInputThenValidate(d: FormData, errors: Errors, raw: string)
    ensures Passes(PhoneInput(d, errors, raw).0) <==>
              && NameError(Value(d, Name)).None? && !Blank(Value(d, Village)) && AgeError(Value(d, Age)).None?
              && !Blank(Value(d, Education)) && d.termsAccepted
              && |Text.KeepDigits(raw)| >= 10 && '6' <= Text.KeepDigits(raw)[0] <= '9'
  {
    SanitisedPhoneValid(raw);
  }

  /** The experience field never affects validity. */
  lemma ExperienceIgnored(d: FormData, experience: string)
    ensures Passes(SetField(d, Experience, Typed(experience))) == Passes(d)
  {
  }
}
