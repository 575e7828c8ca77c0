/** The request scenarios the controller and service tests pin down, stated
    over the validator, the service and the exception handler together. */
module Scenarios {
  import opened Domain
  import opened JavaString
  import opened UserRequestValidation
  import UserMapper
  import UserService
  import ExceptionHandler

  const UsersPath: string := "/users"

  /** No char of s lies above the Basic Multilingual Plane. */
  predicate Bmp(s: string) {
    forall k :: 0 <= k < |s| ==> s[k] as int < 0x1_0000
  }

  /** A non-empty value with kept chars at both ends and no supplementary chars. */
  predicate Ordinary(s: string) {
    |s| > 0 && !IsTrimmable(s[0]) && !IsTrimmable(s[|s| - 1]) && Bmp(s)
  }

  /** An ordinary value is neither blank nor surrounded by blanks, and its
      length() is its char count. */
  lemma OrdinaryValue(s: string)
    requires Ordinary(s)
    ensures !Blank(Some(s)) && !SurroundedByBlank(Some(s)) && JavaLength(s) == |s|
  {
    JavaLengthBmp(s);
  }

  /** What the rules see in each test value. */
  lemma MariazinhaValue()
    ensures !Blank(Some("Mariazinha")) && !SurroundedByBlank(Some("Mariazinha")) && JavaLength("Mariazinha") == 10
  {
    assert Ordinary("Mariazinha");
    OrdinaryValue("Mariazinha");
  }

  lemma ShortNameValue()
    ensures !Blank(Some("ma")) && !SurroundedByBlank(Some("ma")) && JavaLength("ma") == 2
  {
    assert Ordinary("ma");
    OrdinaryValue("ma");
  }

  lemma MariaValue()
    ensures !Blank(Some("Maria")) && !SurroundedByBlank(Some("Maria")) && JavaLength("Maria") == 5
  {
    assert Ordinary("Maria");
    OrdinaryValue("Maria");
  }

  lemma AddressValue()
    ensures !Blank(Some("maria@mail.com")) && !SurroundedByBlank(Some("maria@mail.com")) && JavaLength("maria@mail.com") == 14
  {
    assert Ordinary("maria@mail.com");
    OrdinaryValue("maria@mail.com");
  }

  lemma AddressWithoutAtValue()
    ensures !Blank(Some("mariamail.com")) && !SurroundedByBlank(Some("mariamail.com")) && JavaLength("mariamail.com") == 13
  {
    assert Ordinary("mariamail.com");
    OrdinaryValue("mariamail.com");
  }

  lemma PasswordValue()
    ensures !Blank(Some("password123")) && !SurroundedByBlank(Some("password123")) && JavaLength("password123") == 11
  {
    assert Ordinary("password123");
    OrdinaryValue("password123");
  }

  /** A value that starts with a stripped char followed by a kept one is not
      blank but is surrounded by blanks. */
  lemma LeadingBlankValue(s: string)
    requires |s| > 1 && IsTrimmable(s[0]) && !IsTrimmable(s[1]) && Bmp(s)
    ensures !Blank(Some(s)) && SurroundedByBlank(Some(s)) && JavaLength(s) == |s|
  {
    JavaLengthBmp(s);
  }

  lemma LeadingSpaceValue()
    ensures !Blank(Some(" Mariazinha")) && SurroundedByBlank(Some(" Mariazinha")) && JavaLength(" Mariazinha") == 11
  {
    assert Bmp(" Mariazinha") && IsTrimmable(" Mariazinha"[0]) && !IsTrimmable(" Mariazinha"[1]);
    LeadingBlankValue(" Mariazinha");
  }

  /** An e-mail check that rejects addresses without '@' rejects the test address. */
  lemma AddressWithoutAtFails(emailOk: string -> bool)
    requires RejectsWithoutAt(emailOk)
    ensures !emailOk("mariamail.com")
  {
    assert |"mariamail.com"| > 0 && '@' !in "mariamail.com";
  }

  /** A binding result that lists one violation lists it alone, and the
      response carries exactly that field message. */
  lemma OneViolationResponse(e: FieldError, fieldErrors: seq<FieldError>, now: Timestamp)
    requires multiset(fieldErrors) == multiset{e}
    ensures fieldErrors == [e]
    ensures ExceptionHandler.Handle(WebExchangeBindException(fieldErrors), UsersPath, now) ==
      Some(ErrorResponse(400, Validation(ValidationError(now, UsersPath, 400, "Validation Error",
        "Error on validation attributes", [FieldMessage(e.field, e.defaultMessage)]))))
  {
    assert |fieldErrors| == |multiset(fieldErrors)| == 1;
    assert fieldErrors[0] in multiset(fieldErrors);
    var v := ExceptionHandler.BindFailure([e], UsersPath, now).body.validation;
    assert v.errors == [FieldMessage(e.field, e.defaultMessage)];
  }

  /** A name every rule accepts reports nothing. */
  lemma NameAccepted(request: UserRequest)
    requires !SurroundedByBlank(request.name) && !OutOfRange(request.name, 3, 50) && !Blank(request.name)
    ensures NameReport(request) == multiset{}
  {
  }

  /** A name that breaks only @TrimString reports that alone. */
  lemma NameUntrimmed(request: UserRequest)
    requires SurroundedByBlank(request.name) && !OutOfRange(request.name, 3, 50) && !Blank(request.name)
    ensures NameReport(request) == multiset{FieldError("name", TrimMessage)}
  {
  }

  /** A name that breaks only @Size reports that alone. */
  lemma NameOutOfRange(request: UserRequest)
    requires !SurroundedByBlank(request.name) && OutOfRange(request.name, 3, 50) && !Blank(request.name)
    ensures NameReport(request) == multiset{FieldError("name", NameSizeMessage)}
  {
  }

  /** An address every rule accepts reports nothing. */
  lemma EmailAccepted(request: UserRequest, emailOk: string -> bool)
    requires !SurroundedByBlank(request.email) && request.email.Some? && emailOk(request.email.value) && !Blank(request.email)
    ensures EmailReport(request, emailOk) == multiset{}
  {
  }

  /** An address that breaks only @Email reports that alone. */
  lemma EmailMalformed(request: UserRequest, emailOk: string -> bool)
    requires !SurroundedByBlank(request.email) && Malformed(request.email, emailOk) && !Blank(request.email)
    ensures EmailReport(request, emailOk) == multiset{FieldError("email", EmailMessage)}
  {
  }

  /** A password every rule accepts reports nothing. */
  lemma PasswordAccepted(request: UserRequest)
    requires !SurroundedByBlank(request.password) && !OutOfRange(request.password, 3, 20) && !Blank(request.password)
    ensures PasswordReport(request) == multiset{}
  {
  }

  /** ("Mariazinha", "maria@mail.com", "password123") passes validation. */
  lemma ValidRequestPasses(emailOk: string -> bool)
    requires emailOk("maria@mail.com")
    ensures Validate(UserRequest(Some("Mariazinha"), Some("maria@mail.com"), Some("password123")), emailOk) == multiset{}
  {
    var request := UserRequest(Some("Mariazinha"), Some("maria@mail.com"), Some("password123"));
    MariazinhaValue();
    AddressValue();
    PasswordValue();
    NameAccepted(request);
    EmailAccepted(request, emailOk);
    PasswordAccepted(request);
  }

  /** (" Mariazinha", ...) breaks only the trim rule on name. */
  lemma LeadingSpaceNameViolation(emailOk: string -> bool)
    requires emailOk("maria@mail.com")
    ensures Validate(UserRequest(Some(" Mariazinha"), Some("maria@mail.com"), Some("password123")), emailOk)
      == multiset{FieldError("name", TrimMessage)}
  {
    var request := UserRequest(Some(" Mariazinha"), Some("maria@mail.com"), Some("password123"));
    LeadingSpaceValue();
    AddressValue();
    PasswordValue();
    NameUntrimmed(request);
    EmailAccepted(request, emailOk);
    PasswordAccepted(request);
  }

  /** ("ma", ...) breaks only the size rule on name. */
  lemma ShortNameViolation(emailOk: string -> bool)
    requires emailOk("maria@mail.com")
    ensures Validate(UserRequest(Some("ma"), Some("maria@mail.com"), Some("password123")), emailOk)
      == multiset{FieldError("name", NameSizeMessage)}
  {
    var request := UserRequest(Some("ma"), Some("maria@mail.com"), Some("password123"));
    ShortNameValue();
    AddressValue();
    PasswordValue();
    NameOutOfRange(request);
    EmailAccepted(request, emailOk);
    PasswordAccepted(request);
  }

  /** ("Maria", "mariamail.com", ...) breaks only the e-mail format rule. */
  lemma AddressWithoutAtViolation(emailOk: string -> bool)
    requires !emailOk("mariamail.com")
    ensures Validate(UserRequest(Some("Maria"), Some("mariamail.com"), Some("password123")), emailOk)
      == multiset{FieldError("email", EmailMessage)}
  {
    var request := UserRequest(Some("Maria"), Some("mariamail.com"), Some("password123"));
    MariaValue();
    AddressWithoutAtValue();
    PasswordValue();
    NameAccepted(request);
    EmailMalformed(request, emailOk);
    PasswordAccepted(request);
  }

  /** POST with a leading space in the name: whatever order the binding
      result lists the violations in, it lists the trim error alone, and the
      response is 400 with that one field message. */
  lemma LeadingSpaceNameRejected(emailOk: string -> bool, fieldErrors: seq<FieldError>, now: Timestamp)
    requires emailOk("maria@mail.com")
    ensures multiset(fieldErrors) == Validate(UserRequest(Some(" Mariazinha"), Some("maria@mail.com"), Some("password123")), emailOk) ==>
      && fieldErrors == [FieldError("name", TrimMessage)]
      && ExceptionHandler.Handle(WebExchangeBindException(fieldErrors), UsersPath, now) ==
         Some(ErrorResponse(400, Validation(ValidationError(now, UsersPath, 400, "Validation Error",
           "Error on validation attributes", [FieldMessage("name", "field cannot have blank spaces at the end or the begin")]))))
  {
    LeadingSpaceNameViolation(emailOk);
    if multiset(fieldErrors) == multiset{FieldError("name", TrimMessage)} {
      OneViolationResponse(FieldError("name", TrimMessage), fieldErrors, now);
    }
  }

  /** POST with a two-letter name: the size error alone, answered with 400. */
  lemma ShortNameRejected(emailOk: string -> bool, fieldErrors: seq<FieldError>, now: Timestamp)
    requires emailOk("maria@mail.com")
    ensures multiset(fieldErrors) == Validate(UserRequest(Some("ma"), Some("maria@mail.com"), Some("password123")), emailOk) ==>
      && fieldErrors == [FieldError("name", NameSizeMessage)]
      && ExceptionHandler.Handle(WebExchangeBindException(fieldErrors), UsersPath, now) ==
         Some(ErrorResponse(400, Validation(ValidationError(now, UsersPath, 400, "Validation Error",
           "Error on validation attributes", [FieldMessage("name", "must be between 3 and 50 characters")]))))
  {
    ShortNameViolation(emailOk);
    if multiset(fieldErrors) == multiset{FieldError("name", NameSizeMessage)} {
      OneViolationResponse(FieldError("name", NameSizeMessage), fieldErrors, now);
    }
  }

  /** POST with an address lacking '@': the e-mail error alone, answered
      with 400. */
  lemma AddressWithoutAtRejected(emailOk: string -> bool, fieldErrors: seq<FieldError>, now: Timestamp)
    requires RejectsWithoutAt(emailOk)
    ensures multiset(fieldErrors) == Validate(UserRequest(Some("Maria"), Some("mariamail.com"), Some("password123")), emailOk) ==>
      && fieldErrors == [FieldError("email", EmailMessage)]
      && ExceptionHandler.Handle(WebExchangeBindException(fieldErrors), UsersPath, now) ==
         Some(ErrorResponse(400, Validation(ValidationError(now, UsersPath, 400, "Validation Error",
           "Error on validation attributes", [FieldMessage("email", "invalid e-mail")]))))
  {
    AddressWithoutAtFails(emailOk);
    AddressWithoutAtViolation(emailOk);
    if multiset(fieldErrors) == multiset{FieldError("email", EmailMessage)} {
      OneViolationResponse(FieldError("email", EmailMessage), fieldErrors, now);
    }
  }

  /** An empty name breaks both @NotBlank and @Size (0 < 3), but not
      @TrimString; a null name breaks @NotBlank alone. */
  lemma EmptyNameReportsTwice(email: Option<string>, password: Option<string>, emailOk: string -> bool)
    ensures var vs := Validate(UserRequest(Some(""), email, password), emailOk);
      FieldError("name", NotBlankMessage) in vs && FieldError("name", NameSizeMessage) in vs
      && FieldError("name", TrimMessage) !in vs
    ensures var vs := Validate(UserRequest(None, email, password), emailOk);
      FieldError("name", NotBlankMessage) in vs && FieldError("name", NameSizeMessage) !in vs
      && FieldError("name", TrimMessage) !in vs
  {
    ValidateName(UserRequest(Some(""), email, password), emailOk);
    ValidateName(UserRequest(None, email, password), emailOk);
  }

  /** An empty address is blank but not malformed: @Email passes "" as it
      passes null, whatever the format check says. */
  lemma EmptyAddressIsOnlyBlank(name: Option<string>, password: Option<string>, emailOk: string -> bool)
    ensures var vs := Validate(UserRequest(name, Some(""), password), emailOk);
      FieldError("email", NotBlankMessage) in vs && FieldError("email", EmailMessage) !in vs
      && FieldError("email", TrimMessage) !in vs
  {
    ValidateEmail(UserRequest(name, Some(""), password), emailOk);
  }

  /** A duplicate e-mail on save: the repository's duplicate-key failure
      reaches the advice unchanged and becomes 400 "E-mail already exists.". */
  lemma DuplicateEmailOnSave(request: UserRequest, repositorySave: User -> Result<User, Exception>,
                             message: string, path: string, now: Timestamp)
    requires repositorySave(UserMapper.ToEntity(request)) == Err(DuplicateKeyException(message))
    requires exists i :: OccursAt(message, "email dup key", i)
    ensures var run := UserService.Save(request, repositorySave);
      && run.outcome.Err?
      && ExceptionHandler.Handle(run.outcome.error, path, now) ==
           Some(ErrorResponse(400, Standard(StandardError(now, 400, "Bad Request", "E-mail already exists.", path))))
  {
  }
}
