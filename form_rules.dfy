/** The rules the two registration forms share
    (frontend/src/pages/youth-leadership-program-modal/components/RegistrationForm.jsx and
    frontend/src/pages/member-registration-modal/components/RegistrationForm.jsx):
    the name rule, the Indian mobile-number pattern, the phone-input
    sanitiser, JavaScript's `parseInt` as the age rule reads it, and clearing
    a field's error while typing. */
module FormRules {
  import opened Wrappers
  import Text

  const NameRequired: string := "Name is required"
  const NameTooShort: string := "Name must be at least 2 characters"
  const PhoneRequired: string := "Phone number is required"
  const PhoneInvalid: string := "Please enter a valid 10-digit Indian mobile number"
  const TermsRequired: string := "You must accept the terms and conditions"
  const VillageRequired: string := "Village name is required"

  /** `!s.trim()`. */
  predicate Blank(s: string) {
    Text.Trim(s) == []
  }

  /** The name check: required, then at least two characters once trimmed. */
  function NameError(name: string): (r: Option<string>)
    ensures r.None? <==> |Text.Trim(name)| >= 2
    ensures r == Some(NameRequired) <==> Blank(name)
    ensures r.Some? ==> r.value in {NameRequired, NameTooShort}
  {
    if Blank(name) then Some(NameRequired)
    else if |Text.Trim(name)| < 2 then Some(NameTooShort)
    else None
  }

  /** A field that must not be blank. */
  function RequiredError(value: string, message: string): (r: Option<string>)
    ensures r.None? <==> !Blank(value)
    ensures r.Some? ==> r.value == message
  {
    if Blank(value) then Some(message) else None
  }

  /** `/^[6-9]\d{9}$/.test(s)`: ten ASCII digits, the first 6 to 9. A
      number that passes is one the phone input lets through unchanged. */
  predicate IsMobile(s: string): (r: bool)
    ensures r ==> SanitisePhone(s) == s && Text.KeepDigits(s) == s
  {
    |s| == 10 && '6' <= s[0] <= '9' && forall i :: 0 <= i < 10 ==> Text.IsDigit(s[i])
  }

  /** The phone check: required, then the mobile pattern. */
  function PhoneError(phone: string): (r: Option<string>)
    ensures r.None? <==> IsMobile(phone)
    ensures r == Some(PhoneRequired) <==> Blank(phone)
    ensures r.Some? ==> r.value in {PhoneRequired, PhoneInvalid}
  {
    Text.BlankIffAllSpace(phone);
    assert IsMobile(phone) ==> !Text.IsSpace(phone[0]);
    if Blank(phone) then Some(PhoneRequired)
    else if !IsMobile(phone) then Some(PhoneInvalid)
    else None
  }

  /** The phone input's `value.replace(/\D/g, '').slice(0, 10)`. */
  function SanitisePhone(input: string): (r: string)
    ensures |r| <= 10
    ensures forall i :: 0 <= i < |r| ==> Text.IsDigit(r[i])
    ensures |r| == if |Text.KeepDigits(input)| < 10 then |Text.KeepDigits(input)| else 10
    ensures r == Text.KeepDigits(input)[..|r|]
  {
    Text.Take(Text.KeepDigits(input), 10)
  }

  /** Sanitising a sanitised value changes nothing. */
  lemma SanitiseIdempotent(input: string)
    ensures SanitisePhone(SanitisePhone(input)) == SanitisePhone(input)
  {
  }

  /** A sanitised phone passes the check exactly when the input held at
      least ten digits, the first of them 6 to 9. */
  lemma SanitisedPhoneValid(input: string)
    ensures IsMobile(SanitisePhone(input)) <==>
              |Text.KeepDigits(input)| >= 10 && '6' <= Text.KeepDigits(input)[0] <= '9'
  {
  }

  /** A sanitised phone is blank only when it is empty. */
  lemma SanitisedBlankIffEmpty(input: string)
    ensures Blank(SanitisePhone(input)) <==> SanitisePhone(input) == []
  {
    var r := SanitisePhone(input);
    Text.BlankIffAllSpace(r);
    if r != [] {
      assert !Text.IsSpace(r[0]);
    }
  }

  // -------------------------------------------------------------- parseInt

  predicate IsHexDigit(c: char) {
    Text.IsDigit(c) || 'a' <= c <= 'f' || 'A' <= c <= 'F'
  }

  predicate IsRadixDigit(c: char, hex: bool) {
    if hex then IsHexDigit(c) else Text.IsDigit(c)
  }

  function HexDigitValue(c: char): (d: nat)
    requires IsHexDigit(c)
    ensures d < 16
  {
    if Text.IsDigit(c) then Text.DigitValue(c)
    else if 'a' <= c <= 'f' then c as int - 'a' as int + 10
    else c as int - 'A' as int + 10
  }

  /** The leading digits of `s` in the radix. */
  function DigitRun(s: string, hex: bool): (r: string)
    ensures r <= s
    ensures forall i :: 0 <= i < |r| ==> IsRadixDigit(r[i], hex)
    ensures |r| < |s| ==> !IsRadixDigit(s[|r|], hex)
  {
    if s != [] && IsRadixDigit(s[0], hex) then [s[0]] + DigitRun(s[1..], hex) else []
  }

  /** The number a run of digits denotes in the radix. */
  function RunValue(s: string, hex: bool): nat
    requires forall i :: 0 <= i < |s| ==> IsRadixDigit(s[i], hex)
  {
    if s == [] then 0
    else
      var c := s[|s| - 1];
      assert IsRadixDigit(c, hex);
      var d := if hex then HexDigitValue(c) else Text.DigitValue(c);
      (if hex then 16 else 10) * RunValue(s[..|s| - 1], hex) + d
  }

  /** After an optional sign: whether a '0x'/'0X' prefix selects radix 16. */
  predicate HexPrefixed(t: string) {
    |t| >= 2 && t[0] == '0' && (t[1] == 'x' || t[1] == 'X')
  }

  /** The text after leading white space and an optional sign. */
  function Unsigned(s: string): (r: string)
  {
    var t := Text.TrimStart(s);
    if t != [] && (t[0] == '-' || t[0] == '+') then t[1..] else t
  }

  predicate Negative(s: string) {
    var t := Text.TrimStart(s);
    t != [] && t[0] == '-'
  }

  /** The digits `parseInt` reads: decimal, or hexadecimal after '0x'. */
  function Digits(s: string): (r: string)
    ensures forall i :: 0 <= i < |r| ==> IsRadixDigit(r[i], HexPrefixed(Unsigned(s)))
  {
    RunAfterPrefix(Unsigned(s))
  }

  /** The digit run of an unsigned text, after its '0x' prefix if any. */
  function RunAfterPrefix(u: string): (r: string)
    ensures forall i :: 0 <= i < |r| ==> IsRadixDigit(r[i], HexPrefixed(u))
  {
    if HexPrefixed(u) then DigitRun(u[2..], true) else DigitRun(u, false)
  }

  /** JavaScript's `parseInt(s)` without a radix: leading white space is
      skipped, a sign is read, '0x' switches to radix 16, and the longest run
      of digits is converted; without digits the result is NaN (None). */
  function ParseInt(s: string): (r: Option<int>)
    ensures r.None? <==> Digits(s) == []
    ensures r.Some? ==> r.value == (if Negative(s) then -1 else 1) * RunValue(Digits(s), HexPrefixed(Unsigned(s)))
  {
    var digits := Digits(s);
    if digits == [] then None
    else
      var n: int := RunValue(digits, HexPrefixed(Unsigned(s)));
      Some(if Negative(s) then -n else n)
  }

  lemma {:induction false} DigitRunAll(s: string)
    requires forall i :: 0 <= i < |s| ==> Text.IsDigit(s[i])
    ensures DigitRun(s, false) == s
  {
    if s != [] {
      DigitRunAll(s[1..]);
    }
  }

  lemma {:induction false} RunValueDecimal(s: string)
    requires forall i :: 0 <= i < |s| ==> Text.IsDigit(s[i])
    ensures RunValue(s, false) == Text.DecimalValue(s)
  {
    if s != [] {
      RunValueDecimal(s[..|s| - 1]);
    }
  }

  /** The run stops where the digits end. */
  lemma {:induction false} DigitRunPrefix(d: string, t: string, hex: bool)
    requires forall i :: 0 <= i < |d| ==> IsRadixDigit(d[i], hex)
    requires t == [] || !IsRadixDigit(t[0], hex)
    ensures DigitRun(d + t, hex) == d
  {
    if d == [] {
      assert d + t == t;
    } else {
      assert (d + t)[0] == d[0] && (d + t)[1..] == d[1..] + t;
      DigitRunPrefix(d[1..], t, hex);
    }
  }

  /** `parseInt` skips leading white space, reads a sign, and stops at the
      first character after the numeral that is not a digit: for example
      " 25abc" gives 25 and "-5" gives -5. */
  lemma ParseIntNumeralPrefix(w: string, sign: string, n: nat, t: string)
    requires Text.AllSpace(w)
    requires sign == "" || sign == "-" || sign == "+"
    requires t == [] || (!Text.IsDigit(t[0]) && t[0] != 'x' && t[0] != 'X')
    ensures ParseInt(w + (sign + (Text.DecimalString(n) + t))) == Some(if sign == "-" then -(n as int) else n)
  {
    ParseIntSigned(sign, n, t);
    ParseIntAfterSpace(w, sign + (Text.DecimalString(n) + t));
  }

  /** Leading white space does not change what `parseInt` reads. */
  lemma ParseIntAfterSpace(w: string, x: string)
    requires Text.AllSpace(w) && (x == [] || !Text.IsSpace(x[0]))
    ensures ParseInt(w + x) == ParseInt(x)
  {
    Text.TrimStartSpaces(w, x);
    Text.TrimStartSpaces([], x);
    assert [] + x == x;
    ParseIntReadsTrimmed(w + x, x);
  }

  /** `parseInt` reads only what is left after leading white space. */
  lemma ParseIntReadsTrimmed(a: string, b: string)
    requires Text.TrimStart(a) == Text.TrimStart(b)
    ensures ParseInt(a) == ParseInt(b)
  {
    assert Unsigned(a) == Unsigned(b);
    assert Negative(a) == Negative(b);
  }

  /** The same without leading white space. */
  lemma ParseIntSigned(sign: string, n: nat, t: string)
    requires sign == "" || sign == "-" || sign == "+"
    requires t == [] || (!Text.IsDigit(t[0]) && t[0] != 'x' && t[0] != 'X')
    ensures var s := sign + (Text.DecimalString(n) + t);
      && s != [] && !Text.IsSpace(s[0])
      && ParseInt(s) == Some(if sign == "-" then -(n as int) else n)
  {
    var d := Text.DecimalString(n);
    var s := sign + (d + t);
    assert Text.IsDigit(d[0]);
    SignRead(sign, d + t);
    NumeralRead(n, t);
    assert Digits(s) == d;
  }

  /** After an optional sign the text that follows is read unsigned. */
  lemma SignRead(sign: string, rest: string)
    requires sign == "" || sign == "-" || sign == "+"
    requires rest != [] && Text.IsDigit(rest[0])
    ensures var s := sign + rest;
      s != [] && !Text.IsSpace(s[0]) && Unsigned(s) == rest && (Negative(s) <==> sign == "-")
  {
    var s := sign + rest;
    if sign == "" {
      assert s == rest;
      assert !Text.IsSpace(s[0]);
      assert Text.TrimStart(s) == s;
    } else {
      assert s[0] == sign[0] && s[1..] == rest;
      assert !Text.IsSpace(s[0]);
      assert Text.TrimStart(s) == s;
    }
  }

  /** A numeral followed by a non-digit is read as its value, in radix 10. */
  lemma NumeralRead(n: nat, t: string)
    requires t == [] || (!Text.IsDigit(t[0]) && t[0] != 'x' && t[0] != 'X')
    ensures var d := Text.DecimalString(n);
      !HexPrefixed(d + t) && DigitRun(d + t, false) == d && RunValue(d, false) == n
  {
    var d := Text.DecimalString(n);
    var rest := d + t;
    assert !HexPrefixed(rest) by {
      if |d| >= 2 { assert rest[1] == d[1]; } else if |rest| >= 2 { assert rest[1] == t[0]; }
    }
    DigitRunPrefix(d, t, false);
    RunValueDecimal(d);
    Text.DecimalRoundTrip(n);
  }

  /** With a '0x' prefix the digits are read in radix 16: "0x1A" gives 26. */
  lemma ParseIntHex()
    ensures ParseInt("0x1A") == Some(26)
  {
    var s := "0x1A";
    assert Text.TrimStart(s) == s by { assert !Text.IsSpace(s[0]); }
    assert Unsigned(s) == s;
    assert s[2..] == "1A";
    assert DigitRun("1A", true) == "1A" by {
      assert "1A"[1..] == "A";
      assert DigitRun("A", true) == "A" by { assert "A"[1..] == []; }
    }
    assert RunValue("1A", true) == 26 by {
      assert "1A"[..1] == "1";
      assert RunValue("1", true) == 1 by { assert "1"[..0] == []; }
    }
  }

  /** `parseInt` reads back every decimal numeral. */
  lemma ParseIntDecimal(n: nat)
    ensures ParseInt(Text.DecimalString(n)) == Some(n)
  {
    var s := Text.DecimalString(n);
    assert Text.TrimStart(s) == s by {
      assert !Text.IsSpace(s[0]);
    }
    assert Unsigned(s) == s;
    assert !HexPrefixed(s);
    DigitRunAll(s);
    RunValueDecimal(s);
    Text.DecimalRoundTrip(n);
  }

  const AgeRequired: string := "Age is required"
  const AgeOutOfRange: string := "Age must be between 18 and 35 years"

  /** The age check: required, then an error when the parsed number is
      below 18 or above 35; a value with no number in it (NaN) passes. */
  function AgeError(age: string): (r: Option<string>)
    ensures r == Some(AgeRequired) <==> Blank(age)
    ensures r == Some(AgeOutOfRange) <==> !Blank(age) && ParseInt(age).Some? && (ParseInt(age).value < 18 || ParseInt(age).value > 35)
    ensures r.None? <==> !Blank(age) && (ParseInt(age).None? || 18 <= ParseInt(age).value <= 35)
  {
    if Blank(age) then Some(AgeRequired)
    else match ParseInt(age)
      case Some(n) => if n < 18 || n > 35 then Some(AgeOutOfRange) else None
      case None => None
  }

  /** A numeral for an age from 18 to 35 passes; any other age fails. */
  lemma AgeOfNumeral(n: nat)
    ensures AgeError(Text.DecimalString(n)).None? <==> 18 <= n <= 35
  {
    var s := Text.DecimalString(n);
    ParseIntDecimal(n);
    Text.BlankIffAllSpace(s);
    assert !Text.IsSpace(s[0]);
  }

  /** A non-blank age with no digits is not rejected (the comparison with
      NaN is false). */
  lemma AgeWithoutDigitsPasses()
    ensures AgeError("abc").None?
  {
    var s := "abc";
    assert !Text.IsSpace(s[0]);
    assert Text.TrimStart(s) == s;
    Text.BlankIffAllSpace(s);
    assert Unsigned(s) == s;
    assert !HexPrefixed(s);
    assert DigitRun(s, false) == [];
  }

  // ---------------------------------------------------------- error clearing

  /** The fields of the registration forms; `Key` is the name each has in
      the form data and in the error dictionary. */
  datatype Field = Name | Village | City | PhoneNumber | Age | Education | Experience | TermsAccepted

  function Key(f: Field): string {
    match f
    case Name => "name"
    case Village => "village"
    case City => "city"
    case PhoneNumber => "phoneNumber"
    case Age => "age"
    case Education => "education"
    case Experience => "experience"
    case TermsAccepted => "termsAccepted"
  }

  /** A change event: the text of an input, or the terms checkbox. */
  datatype Input = Typed(text: string) | Ticked(checked: bool)

  // ------------------------------------------------------------ local data

  /** A registration form's local data: the text of each field it holds
      (`None` for a field the form does not have), and the terms checkbox. */
  datatype FormData = FormData(
    name: Option<string>,
    village: Option<string>,
    city: Option<string>,
    phoneNumber: Option<string>,
    age: Option<string>,
    education: Option<string>,
    experience: Option<string>,
    termsAccepted: bool)

  /** The text a field holds, when the form has it. */
  function FieldText(d: FormData, f: Field): Option<string> {
    match f
    case Name => d.name
    case Village => d.village
    case City => d.city
    case PhoneNumber => d.phoneNumber
    case Age => d.age
    case Education => d.education
    case Experience => d.experience
    case TermsAccepted => None
  }

  /** `localData[field]` for a text field; a field the data lacks reads as ''. */
  function Value(d: FormData, f: Field): string {
    FieldText(d, f).GetOr("")
  }

  /** `formData.x || ''` for a value handed down by the parent, when the form
      has field `f`. */
  function ParentValue(fields: set<Field>, parent: map<string, string>, f: Field): Option<string> {
    if f !in fields then None else if Key(f) in parent then Some(parent[Key(f)]) else Some("")
  }

  /** Each text field of a record built field by field from the parent's data
      reads that field's parent value. */
  lemma InitialFields(r: FormData, fields: set<Field>, parent: map<string, string>)
    requires r.name == ParentValue(fields, parent, Name) && r.village == ParentValue(fields, parent, Village)
    requires r.city == ParentValue(fields, parent, City) && r.phoneNumber == ParentValue(fields, parent, PhoneNumber)
    requires r.age == ParentValue(fields, parent, Age) && r.education == ParentValue(fields, parent, Education)
    requires r.experience == ParentValue(fields, parent, Experience)
    ensures forall f :: f != TermsAccepted ==> FieldText(r, f) == ParentValue(fields, parent, f)
  {
    forall f | f != TermsAccepted ensures FieldText(r, f) == ParentValue(fields, parent, f) {
      match f {
        case Name => case Village => case City => case PhoneNumber => case Age => case Education => case Experience =>
      }
    }
  }

  /** The local data a form starts with: each of its text fields takes the
      parent's value under its key, '' when there is none, and the terms
      flag is the parent's. */
  function Initial(fields: set<Field>, parent: map<string, string>, terms: bool): (r: FormData)
    ensures forall f :: f != TermsAccepted ==> (FieldText(r, f).Some? <==> f in fields)
    ensures forall f :: f in fields && f != TermsAccepted ==> Value(r, f) == (if Key(f) in parent then parent[Key(f)] else "")
    ensures r.termsAccepted == terms
  {
    var r := FormData(ParentValue(fields, parent, Name), ParentValue(fields, parent, Village), ParentValue(fields, parent, City),
                      ParentValue(fields, parent, PhoneNumber), ParentValue(fields, parent, Age),
                      ParentValue(fields, parent, Education), ParentValue(fields, parent, Experience), terms);
    InitialFields(r, fields, parent);
    r
  }

  /** `setLocalData(prev => ({...prev, [field]: value}))`: the field takes the
      input, every other field keeps its value. */
  function SetField(d: FormData, field: Field, input: Input): (r: FormData)
    ensures input.Typed? && field != TermsAccepted ==> FieldText(r, field) == Some(input.text)
    ensures input.Ticked? && field == TermsAccepted ==> r.termsAccepted == input.checked
    ensures forall f :: f != field ==> FieldText(r, f) == FieldText(d, f)
    ensures !(input.Typed? && field != TermsAccepted) ==> FieldText(r, field) == FieldText(d, field)
    ensures !(input.Ticked? && field == TermsAccepted) ==> r.termsAccepted == d.termsAccepted
  {
    match input
    case Typed(t) =>
      (match field
       case Name => d.(name := Some(t))
       case Village => d.(village := Some(t))
       case City => d.(city := Some(t))
       case PhoneNumber => d.(phoneNumber := Some(t))
       case Age => d.(age := Some(t))
       case Education => d.(education := Some(t))
       case Experience => d.(experience := Some(t))
       case TermsAccepted => d)
    case Ticked(b) => if field == TermsAccepted then d.(termsAccepted := b) else d
  }

  /** `handleInputChange`: the field takes the value, and its error (only
      its own) is cleared when one is shown. */
  function HandleInputChange(d: FormData, errors: Errors, field: Field, input: Input): (r: (FormData, Errors))
    ensures r.0 == SetField(d, field, input)
    ensures !Shows(r.1, field) && r.1 == ClearError(errors, field)
    ensures forall f :: f != field ==> Get(r.1, f) == Get(errors, f)
  {
    (SetField(d, field, input), ClearError(errors, field))
  }

  /** The phone input: only the first ten digits typed are kept. */
  function PhoneInput(d: FormData, errors: Errors, raw: string): (r: (FormData, Errors))
    ensures var p := Value(r.0, PhoneNumber);
            |p| <= 10 && forall i :: 0 <= i < |p| ==> Text.IsDigit(p[i])
    ensures Value(r.0, PhoneNumber) == SanitisePhone(raw)
    ensures forall f :: f != PhoneNumber ==> Value(r.0, f) == Value(d, f)
    ensures r.0.termsAccepted == d.termsAccepted
    ensures !Shows(r.1, PhoneNumber)
  {
    HandleInputChange(d, errors, PhoneNumber, Typed(SanitisePhone(raw)))
  }

  /** The error object of a form: for each field, the message under its
      key, or nothing when the key is not set. */
  datatype Errors = Errors(
    name: Option<string>,
    village: Option<string>,
    city: Option<string>,
    phoneNumber: Option<string>,
    age: Option<string>,
    education: Option<string>,
    experience: Option<string>,
    termsAccepted: Option<string>)

  /** `{}`. */
  const NoErrors: Errors := Errors(None, None, None, None, None, None, None, None)

  /** `errors[field]`, when the key is set. */
  function Get(errors: Errors, field: Field): Option<string> {
    match field
    case Name => errors.name
    case Village => errors.village
    case City => errors.city
    case PhoneNumber => errors.phoneNumber
    case Age => errors.age
    case Education => errors.education
    case Experience => errors.experience
    case TermsAccepted => errors.termsAccepted
  }

  /** `{...errors, [field]: message}`: that key holds the message, every
      other key is as it was. */
  function Set(errors: Errors, field: Field, message: string): (r: Errors)
    ensures Get(r, field) == Some(message)
    ensures forall f :: f != field ==> Get(r, f) == Get(errors, f)
  {
    match field
    case Name => errors.(name := Some(message))
    case Village => errors.(village := Some(message))
    case City => errors.(city := Some(message))
    case PhoneNumber => errors.(phoneNumber := Some(message))
    case Age => errors.(age := Some(message))
    case Education => errors.(education := Some(message))
    case Experience => errors.(experience := Some(message))
    case TermsAccepted => errors.(termsAccepted := Some(message))
  }

  /** `Object.keys(errors).length === 0`. */
  predicate NoKeys(errors: Errors) {
    forall f :: Get(errors, f).None?
  }

  lemma NoKeysIffEmpty(errors: Errors)
    ensures NoKeys(errors) <==> errors == NoErrors
  {
    if NoKeys(errors) {
      assert Get(errors, Name).None? && Get(errors, Village).None? && Get(errors, City).None?;
      assert Get(errors, PhoneNumber).None? && Get(errors, Age).None? && Get(errors, Education).None?;
      assert Get(errors, Experience).None? && Get(errors, TermsAccepted).None?;
    }
  }

  /** The error a field shows: a truthy message. */
  predicate Shows(errors: Errors, field: Field) {
    Get(errors, field).Some? && Get(errors, field).value != []
  }

  /** Typing into a field that shows an error sets its message to ''; every
      other key stays as it was. */
  function ClearError(errors: Errors, field: Field): (r: Errors)
    ensures !Shows(r, field)
    ensures Shows(errors, field) ==> Get(r, field) == Some("")
    ensures !Shows(errors, field) ==> r == errors
    ensures forall f :: f != field ==> Get(r, f) == Get(errors, f)
  {
    if Shows(errors, field) then Set(errors, field, "") else errors
  }

  /** Clearing twice is clearing once. */
  lemma ClearErrorIdempotent(errors: Errors, field: Field)
    ensures ClearError(ClearError(errors, field), field) == ClearError(errors, field)
  {
  }
}
