/**
 * The browser-side form validators. Each one receives the name of the field
 * being edited and the current form values, and returns the translation key
 * of the message to show, or nothing when the field is acceptable.
 *
 * Form values are strings; a key that is absent from the map is `undefined`.
 * A chosen file (the agent's licence image) is represented by its non-empty name.
 */
module ClientValidators {
  import opened Common
  import opened JsText
  import Validators

  /** A message: a bare translation key, or a key with one numeric parameter. */
  datatype Message = Key(key: string) | KeyWithParam(key: string, param: string, bound: nat)

  const REQUIRED := Key("validation.required")
  const PASSWORD_MATCH := Key("validation.passwordMatch")
  const EMAIL_FORMAT := Key("validation.email")
  const PHONE_FORMAT := Key("validation.phoneFormat")
  const NUMERIC := Key("validation.numeric")
  const TITLE_REQUIRED := Key("validation.titleRequired")
  const TITLE_LENGTH := Key("validation.titleLength")
  const CONTENT_REQUIRED := Key("validation.contentRequired")

  function MinLength(n: nat): Message { KeyWithParam("validation.minLength", "min", n) }
  function MaxLength(n: nat): Message { KeyWithParam("validation.maxLength", "max", n) }

  /** `!values[name]`: the field is absent or empty. */
  predicate Blank(values: map<string, string>, name: string)
  {
    !TruthyStr(Get(values, name))
  }

  // ---------------------------------------------------------------------
  // Phone: ^(01[016789]|02|0[3-9][0-9])-?[0-9]{3,4}-?[0-9]{4}$

  /** The client phone pattern: a mobile prefix, Seoul's 02, or a three-digit area code, then the shared tail. */
  predicate ClientPhonePattern(t: string)
  {
    (|t| >= 3 && t[0] == '0' && t[1] == '1' &&
      (t[2] == '0' || t[2] == '1' || t[2] == '6' || t[2] == '7' || t[2] == '8' || t[2] == '9') &&
      Validators.PhoneTail(t[3..])) ||
    (|t| >= 2 && t[0] == '0' && t[1] == '2' && Validators.PhoneTail(t[2..])) ||
    (|t| >= 3 && t[0] == '0' && '3' <= t[1] <= '9' && IsDigit(t[2]) && Validators.PhoneTail(t[3..]))
  }

  /** The phone check as the form runs it: every `\s` removed first. */
  predicate ClientPhoneValid(p: string)
  {
    ClientPhonePattern(RemoveSpaces(p))
  }

  /** `[0-9]{3,4}-?[0-9]{4}` with its optional hyphens spans 7 to 10 characters. */
  lemma PhoneTailLength(t: string)
    requires Validators.PhoneTail(t)
    ensures 7 <= |t| <= 10
  {
    var s := "01" + ['0'] + t;
    assert s[3..] == t;
    Validators.PhoneLength(s);
  }

  /** Every mobile number the backend accepts, except those with a bar in third place, passes the form. */
  lemma ClientAcceptsBackendMobile(s: string)
    requires Validators.IsValidPhoneNumber(s) && s[2] != '|'
    ensures ClientPhonePattern(s)
  {
  }

  /** The form accepts a Seoul landline that the backend then rejects. */
  lemma ClientAcceptsLandlineBackendRejects()
    ensures ClientPhonePattern("02-123-4567")
    ensures !Validators.IsValidPhoneNumber("02-123-4567")
  {
    var t := "02-123-4567"[2..];
    assert t == "-123-4567";
    assert t[1..][..3] == "123" && t[1..][3..] == "-4567" && t[1..][3..][1..] == "4567";
  }

  /** The backend accepts a bar in third place that the form rejects. */
  lemma BackendAcceptsBarClientRejects()
    ensures Validators.IsValidPhoneNumber("01|-1234-5678")
    ensures !ClientPhonePattern("01|-1234-5678")
  {
    Validators.PhoneAcceptsBar();
  }

  /** Spaces typed anywhere in a number do not change the verdict. */
  lemma PhoneSpacesIgnored(p: string, q: string)
    requires RemoveSpaces(p) == RemoveSpaces(q)
    ensures ClientPhoneValid(p) <==> ClientPhoneValid(q)
  {
  }

  // ---------------------------------------------------------------------
  // validateRegistration

  /** Whether the registration form accepts the field, stated per field. */
  predicate RegistrationFieldOk(field: string, values: map<string, string>)
  {
    var agent := Get(values, "role") == Some(AGENT);
    if field == "username" then
      !Blank(values, "username") && 4 <= |values["username"]| <= 20
    else if field == "password" then
      !Blank(values, "password") && |values["password"]| >= 6
    else if field == "confirmPassword" then
      !Blank(values, "confirmPassword") && Get(values, "password") == Get(values, "confirmPassword")
    else if field == "email" then
      !Blank(values, "email") && Validators.IsValidEmail(values["email"])
    else if field == "phoneNumber" then
      !Blank(values, "phoneNumber") && ClientPhoneValid(values["phoneNumber"])
    else if field == "companyName" || field == "officeAddress" then
      !agent || !Blank(values, field)
    else if field == "licenseImage" then
      !agent || !Blank(values, "licenseImage") || !Blank(values, "licenseImageUrl")
    else
      true
  }

  /** `validateRegistration(field, values)` */
  function ValidateRegistration(field: string, values: map<string, string>): (r: Option<Message>)
    ensures r.None? <==> RegistrationFieldOk(field, values)
    ensures r == Some(REQUIRED) <==>
      (field in ["username", "password", "confirmPassword", "email", "phoneNumber"] && Blank(values, field)) ||
      (Get(values, "role") == Some(AGENT) && (
        ((field == "companyName" || field == "officeAddress") && Blank(values, field)) ||
        (field == "licenseImage" && Blank(values, "licenseImage") && Blank(values, "licenseImageUrl"))))
  {
    if field == "username" && Blank(values, "username") then Some(REQUIRED)
    else if field == "username" && |values["username"]| < 4 then Some(MinLength(4))
    else if field == "username" && |values["username"]| > 20 then Some(MaxLength(20))
    else if field == "password" && Blank(values, "password") then Some(REQUIRED)
    else if field == "password" && |values["password"]| < 6 then Some(MinLength(6))
    else if field == "confirmPassword" && Blank(values, "confirmPassword") then Some(REQUIRED)
    else if field == "confirmPassword" && Get(values, "password") != Get(values, "confirmPassword") then
      Some(PASSWORD_MATCH)
    else if field == "email" && Blank(values, "email") then Some(REQUIRED)
    else if field == "email" && !Validators.IsValidEmail(values["email"]) then Some(EMAIL_FORMAT)
    else if field == "phoneNumber" && Blank(values, "phoneNumber") then Some(REQUIRED)
    else if field == "phoneNumber" && !ClientPhoneValid(values["phoneNumber"]) then Some(PHONE_FORMAT)
    else if Get(values, "role") == Some(AGENT) then
      if field == "companyName" && Blank(values, "companyName") then Some(REQUIRED)
      else if field == "officeAddress" && Blank(values, "officeAddress") then Some(REQUIRED)
      else if field == "licenseImage" && Blank(values, "licenseImage") && Blank(values, "licenseImageUrl") then
        Some(REQUIRED)
      else None
    else None
  }

  // ---------------------------------------------------------------------
  // validateProfile

  predicate ProfileFieldOk(field: string, values: map<string, string>)
  {
    if field == "email" then
      !Blank(values, "email") && Validators.IsValidEmail(values["email"])
    else if field == "phoneNumber" then
      !Blank(values, "phoneNumber") && ClientPhoneValid(values["phoneNumber"])
    else if field == "companyName" then
      Get(values, "role") != Some(AGENT) || !Blank(values, "companyName")
    else
      true
  }

  /** `validateProfile(field, values)` */
  function ValidateProfile(field: string, values: map<string, string>): (r: Option<Message>)
    ensures r.None? <==> ProfileFieldOk(field, values)
    ensures r == Some(REQUIRED) <==>
      ((field == "email" || field == "phoneNumber") && Blank(values, field)) ||
      (field == "companyName" && Get(values, "role") == Some(AGENT) && Blank(values, field))
  {
    if field == "email" && Blank(values, "email") then Some(REQUIRED)
    else if field == "email" && !Validators.IsValidEmail(values["email"]) then Some(EMAIL_FORMAT)
    else if field == "phoneNumber" && Blank(values, "phoneNumber") then Some(REQUIRED)
    else if field == "phoneNumber" && !ClientPhoneValid(values["phoneNumber"]) then Some(PHONE_FORMAT)
    else if field == "companyName" && Get(values, "role") == Some(AGENT) && Blank(values, "companyName") then
      Some(REQUIRED)
    else None
  }

  /** The profile form checks e-mail and phone exactly as the registration form does. */
  lemma ProfileAgreesWithRegistration(field: string, values: map<string, string>)
    requires field == "email" || field == "phoneNumber"
    ensures ValidateProfile(field, values) == ValidateRegistration(field, values)
  {
  }

  // ---------------------------------------------------------------------
  // validatePasswordChange

  predicate PasswordChangeFieldOk(field: string, values: map<string, string>)
  {
    if field == "currentPassword" then !Blank(values, "currentPassword")
    else if field == "newPassword" then !Blank(values, "newPassword") && |values["newPassword"]| >= 6
    else if field == "confirmPassword" then
      !Blank(values, "confirmPassword") && Get(values, "newPassword") == Get(values, "confirmPassword")
    else true
  }

  /** `validatePasswordChange(field, values)` */
  function ValidatePasswordChange(field: string, values: map<string, string>): (r: Option<Message>)
    ensures r.None? <==> PasswordChangeFieldOk(field, values)
    ensures r == Some(REQUIRED) <==>
      (field == "currentPassword" || field == "newPassword" || field == "confirmPassword") && Blank(values, field)
  {
    if field == "currentPassword" && Blank(values, "currentPassword") then Some(REQUIRED)
    else if field == "newPassword" && Blank(values, "newPassword") then Some(REQUIRED)
    else if field == "newPassword" && |values["newPassword"]| < 6 then Some(MinLength(6))
    else if field == "confirmPassword" && Blank(values, "confirmPassword") then Some(REQUIRED)
    else if field == "confirmPassword" && Get(values, "newPassword") != Get(values, "confirmPassword") then
      Some(PASSWORD_MATCH)
    else None
  }

  /** A confirmation that passes is identical to the new password, which itself passes. */
  lemma ConfirmedPasswordPasses(values: map<string, string>)
    requires ValidatePasswordChange("confirmPassword", values).None?
    requires ValidatePasswordChange("newPassword", values).None?
    ensures "confirmPassword" in values && "newPassword" in values
    ensures values["confirmPassword"] == values["newPassword"] && |values["confirmPassword"]| >= 6
  {
  }

  // ---------------------------------------------------------------------
  // validatePropertyForm

  const PropertyRequiredFields: seq<string> := ["address", "city", "deposit", "monthlyRent"]
  const PropertyNumericFields: seq<string> :=
    ["deposit", "monthlyRent", "maintenanceFee", "roomSize", "floor", "totalFloors"]

  /** `validatePropertyForm(field, values)` */
  function ValidatePropertyForm(field: string, values: map<string, string>): (r: Option<Message>)
    ensures r == Some(REQUIRED) <==> field in PropertyRequiredFields && Blank(values, field)
    ensures r == Some(NUMERIC) <==>
      field in PropertyNumericFields && !Blank(values, field) && !IsNumeric(values[field])
    ensures r.None? <==>
      (field in PropertyRequiredFields ==> !Blank(values, field)) &&
      (field in PropertyNumericFields && !Blank(values, field) ==> IsNumeric(values[field]))
  {
    if field in PropertyRequiredFields && Blank(values, field) then Some(REQUIRED)
    else if field in PropertyNumericFields && !Blank(values, field) && !IsNumeric(values[field]) then
      Some(NUMERIC)
    else None
  }

  /** A blank optional amount passes: only the four required fields must be filled in. */
  lemma OptionalAmountsMayBeBlank(field: string, values: map<string, string>)
    requires field in PropertyNumericFields && field !in PropertyRequiredFields
    requires field !in values || values[field] == ""
    ensures ValidatePropertyForm(field, values).None?
  {
  }

  // ---------------------------------------------------------------------
  // validatePostForm

  /** `validatePostForm(field, values)` */
  function ValidatePostForm(field: string, values: map<string, string>): (r: Option<Message>)
    ensures r == Some(TITLE_REQUIRED) <==> field == "title" && Blank(values, "title")
    ensures r == Some(TITLE_LENGTH) <==> field == "title" && !Blank(values, "title") && |values["title"]| > 100
    ensures r == Some(CONTENT_REQUIRED) <==> field == "content" && Blank(values, "content")
    ensures r.None? <==>
      (field == "title" ==> !Blank(values, "title") && |values["title"]| <= 100) &&
      (field == "content" ==> !Blank(values, "content"))
  {
    if field == "title" && Blank(values, "title") then Some(TITLE_REQUIRED)
    else if field == "title" && |values["title"]| > 100 then Some(TITLE_LENGTH)
    else if field == "content" && Blank(values, "content") then Some(CONTENT_REQUIRED)
    else None
  }
}
