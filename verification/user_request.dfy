/** The constraints declared on the fields of UserRequest, as an explicit
    rule list, and the validator that reports every rule a request breaks.
    Each constraint is evaluated on its own: nothing short-circuits. */
module UserRequestValidation {
  import opened Domain
  import opened JavaString
  import TrimStringValidator

  datatype Field = Name | Email | Password

  function FieldName(f: Field): string {
    match f
    case Name => "name"
    case Email => "email"
    case Password => "password"
  }

  function FieldValue(request: UserRequest, f: Field): Option<string> {
    match f
    case Name => request.name
    case Email => request.email
    case Password => request.password
  }

  /** The constraint annotations that appear on UserRequest. */
  datatype Constraint = NotBlank | TrimString | Size(min: int, max: int) | EmailFormat

  /** One annotation on one field, with the message it reports. */
  datatype Rule = Rule(field: Field, constraint: Constraint, message: string)

  const NotBlankMessage: string := "must not be null or empty"
  const NameSizeMessage: string := "must be between 3 and 50 characters"
  const PasswordSizeMessage: string := "must be between 3 and 20 characters"
  const EmailMessage: string := "invalid e-mail"
  const TrimMessage: string := TrimStringValidator.DefaultMessage

  /** The annotations of UserRequest on each field, in declaration order. */
  const NameRules: seq<Rule> := [
    Rule(Name, TrimString, TrimMessage),
    Rule(Name, Size(3, 50), NameSizeMessage),
    Rule(Name, NotBlank, NotBlankMessage)
  ]
  const EmailRules: seq<Rule> := [
    Rule(Email, TrimString, TrimMessage),
    Rule(Email, EmailFormat, EmailMessage),
    Rule(Email, NotBlank, NotBlankMessage)
  ]
  const PasswordRules: seq<Rule> := [
    Rule(Password, TrimString, TrimMessage),
    Rule(Password, Size(3, 20), PasswordSizeMessage),
    Rule(Password, NotBlank, NotBlankMessage)
  ]
  const Rules: seq<Rule> := NameRules + EmailRules + PasswordRules

  /** The e-mail format check is supplied from outside; the only thing assumed
      of it is that a non-empty address without '@' is rejected. */
  ghost predicate RejectsWithoutAt(emailOk: string -> bool) {
    forall s :: |s| > 0 && '@' !in s ==> !emailOk(s)
  }

  /** Whether a value satisfies one constraint. NotBlank, like its Hibernate
      validator, asks for a non-null value whose trim() is non-empty; Size and
      @Email pass null, and @Email passes the empty string too; @TrimString is
      TrimStringValidator.IsValid. */
  function Satisfies(c: Constraint, value: Option<string>, emailOk: string -> bool): (ok: bool)
    ensures value.None? ==> (ok <==> !c.NotBlank?)
    ensures c.NotBlank? && value.Some? ==> (ok <==> Trim(value.value) != [])
    ensures c.TrimString? && value.Some? ==> (ok <==> Trim(value.value) == value.value)
    ensures c.EmailFormat? && value.Some? ==> (ok <==> value.value == [] || emailOk(value.value))
  {
    TrimKeepsLength(if value.Some? then value.value else []);
    match c
    case NotBlank => value.Some? && JavaLength(Trim(value.value)) > 0
    case TrimString => TrimStringValidator.IsValid(value, ())
    case Size(lo, hi) => value.None? || lo <= JavaLength(value.value) <= hi
    case EmailFormat => value.None? || JavaLength(value.value) == 0 || emailOk(value.value)
  }

  predicate Obeys(rule: Rule, request: UserRequest, emailOk: string -> bool) {
    Satisfies(rule.constraint, FieldValue(request, rule.field), emailOk)
  }

  /** The field error one broken rule produces. */
  function ErrorOf(rule: Rule): FieldError {
    FieldError(FieldName(rule.field), rule.message)
  }

  /** The report of one rule: its error once if it is broken, nothing otherwise. */
  function Report(broken: bool, e: FieldError): (m: multiset<FieldError>)
    ensures e in m <==> broken
    ensures m[e] <= 1
  {
    if broken then multiset{e} else multiset{}
  }

  /** Three reports on different errors: each error appears at most once, and
      exactly when its rule is broken. */
  lemma ThreeReports(b1: bool, e1: FieldError, b2: bool, e2: FieldError, b3: bool, e3: FieldError)
    requires e1 != e2 && e1 != e3 && e2 != e3
    ensures var m := Report(b1, e1) + Report(b2, e2) + Report(b3, e3);
      && (forall x :: m[x] <= 1)
      && (forall x :: x in m ==> x == e1 || x == e2 || x == e3)
      && (e1 in m <==> b1) && (e2 in m <==> b2) && (e3 in m <==> b3)
  {
    var m := Report(b1, e1) + Report(b2, e2) + Report(b3, e3);
    forall x
      ensures m[x] <= 1
    {
      assert x in Report(b1, e1) ==> x !in Report(b2, e2) + Report(b3, e3);
      assert x in Report(b2, e2) ==> x !in Report(b3, e3);
    }
  }

  /** What one rule contributes to the violations of a request. */
  function RuleReport(rule: Rule, request: UserRequest, emailOk: string -> bool): multiset<FieldError> {
    Report(!Obeys(rule, request, emailOk), ErrorOf(rule))
  }

  /** The field errors of the rules a request breaks, one per broken rule. The
      validator returns them as a set of constraint violations, so no order is kept. */
  function Violations(rules: seq<Rule>, request: UserRequest, emailOk: string -> bool): (vs: multiset<FieldError>)
    ensures |vs| <= |rules|
  {
    if rules == [] then multiset{}
    else RuleReport(rules[0], request, emailOk) + Violations(rules[1..], request, emailOk)
  }

  /** An error is among the violations exactly when some rule that reports it is broken. */
  lemma {:induction false} ViolationsMeaning(rules: seq<Rule>, request: UserRequest, emailOk: string -> bool, e: FieldError)
    ensures e in Violations(rules, request, emailOk) <==>
      exists k :: 0 <= k < |rules| && ErrorOf(rules[k]) == e && !Obeys(rules[k], request, emailOk)
  {
    if rules != [] {
      var tail := rules[1..];
      ViolationsMeaning(tail, request, emailOk, e);
      if e in Violations(rules, request, emailOk) && e !in RuleReport(rules[0], request, emailOk) {
        var k :| 0 <= k < |tail| && ErrorOf(tail[k]) == e && !Obeys(tail[k], request, emailOk);
        assert rules[k + 1] == tail[k];
      }
      if exists k :: 0 <= k < |rules| && ErrorOf(rules[k]) == e && !Obeys(rules[k], request, emailOk) {
        var k :| 0 <= k < |rules| && ErrorOf(rules[k]) == e && !Obeys(rules[k], request, emailOk);
        if k > 0 {
          assert tail[k - 1] == rules[k];
        }
      }
    }
  }

  /** Rules are checked independently: the violations of a concatenation are
      those of each part. */
  lemma {:induction false} ViolationsAppend(a: seq<Rule>, b: seq<Rule>, request: UserRequest, emailOk: string -> bool)
    ensures Violations(a + b, request, emailOk) == Violations(a, request, emailOk) + Violations(b, request, emailOk)
  {
    if a == [] {
      assert a + b == b;
    } else {
      assert (a + b)[0] == a[0] && (a + b)[1..] == a[1..] + b;
      ViolationsAppend(a[1..], b, request, emailOk);
    }
  }

  /** Three rules report independently of one another. */
  lemma ViolationsOfThree(rules: seq<Rule>, request: UserRequest, emailOk: string -> bool)
    requires |rules| == 3
    ensures Violations(rules, request, emailOk) ==
      RuleReport(rules[0], request, emailOk) + RuleReport(rules[1], request, emailOk) + RuleReport(rules[2], request, emailOk)
  {
    var r0, r1, r2 := RuleReport(rules[0], request, emailOk), RuleReport(rules[1], request, emailOk), RuleReport(rules[2], request, emailOk);
    assert rules[1..][0] == rules[1] && rules[1..][1..] == rules[2..] && rules[2..][0] == rules[2] && rules[2..][1..] == [];
    assert Violations(rules[2..], request, emailOk) == r2;
    assert Violations(rules[1..], request, emailOk) == r1 + r2;
    assert r0 + (r1 + r2) == r0 + r1 + r2;
  }

  /** A value that is null or made only of chars trim strips. */
  predicate Blank(value: Option<string>) {
    value.None? || forall k :: 0 <= k < |value.value| ==> IsTrimmable(value.value[k])
  }

  /** A non-null value whose length() lies outside [lo, hi]. */
  predicate OutOfRange(value: Option<string>, lo: int, hi: int) {
    value.Some? && !(lo <= JavaLength(value.value) <= hi)
  }

  predicate SurroundedByBlank(value: Option<string>) {
    value.Some? && TrimStringValidator.HasSurroundingBlank(value.value)
  }

  /** A non-empty address the format check rejects: @Email passes null and "". */
  predicate Malformed(value: Option<string>, emailOk: string -> bool) {
    value.Some? && value.value != [] && !emailOk(value.value)
  }

  lemma NotBlankMeaning(value: Option<string>, emailOk: string -> bool)
    ensures Satisfies(NotBlank, value, emailOk) <==> !Blank(value)
  {
    if value.Some? {
      var t := Trim(value.value);
      assert JavaLength(t) == 0 <==> t == [];
    }
  }

  /** The nine field errors are pairwise different. */
  lemma MessagesDistinct()
    ensures "name" != "email" && "name" != "password" && "email" != "password"
    ensures TrimMessage != NameSizeMessage && TrimMessage != NotBlankMessage && NameSizeMessage != NotBlankMessage
    ensures TrimMessage != EmailMessage && EmailMessage != NotBlankMessage
    ensures TrimMessage != PasswordSizeMessage && PasswordSizeMessage != NotBlankMessage
  {
    assert |"name"| != |"email"| && |"name"| != |"password"| && |"email"| != |"password"|;
    assert |TrimMessage| == 54 && |NameSizeMessage| == 35 && |NotBlankMessage| == 25;
    assert |EmailMessage| == 14 && |PasswordSizeMessage| == 35;
  }

  /** The reports on `name`: one per broken annotation, each at most once. */
  function NameReport(request: UserRequest): (m: multiset<FieldError>)
    ensures forall e :: m[e] <= 1
    ensures forall e :: e in m ==> e.field == "name"
    ensures FieldError("name", TrimMessage) in m <==> SurroundedByBlank(request.name)
    ensures FieldError("name", NameSizeMessage) in m <==> OutOfRange(request.name, 3, 50)
    ensures FieldError("name", NotBlankMessage) in m <==> Blank(request.name)
  {
    MessagesDistinct();
    ThreeReports(
      SurroundedByBlank(request.name), FieldError("name", TrimMessage),
      OutOfRange(request.name, 3, 50), FieldError("name", NameSizeMessage),
      Blank(request.name), FieldError("name", NotBlankMessage));
    Report(SurroundedByBlank(request.name), FieldError("name", TrimMessage))
    + Report(OutOfRange(request.name, 3, 50), FieldError("name", NameSizeMessage))
    + Report(Blank(request.name), FieldError("name", NotBlankMessage))
  }

  /** The reports on `email`: one per broken annotation, each at most once. */
  function EmailReport(request: UserRequest, emailOk: string -> bool): (m: multiset<FieldError>)
    ensures forall e :: m[e] <= 1
    ensures forall e :: e in m ==> e.field == "email"
    ensures FieldError("email", TrimMessage) in m <==> SurroundedByBlank(request.email)
    ensures FieldError("email", EmailMessage) in m <==> Malformed(request.email, emailOk)
    ensures FieldError("email", NotBlankMessage) in m <==> Blank(request.email)
  {
    MessagesDistinct();
    ThreeReports(
      SurroundedByBlank(request.email), FieldError("email", TrimMessage),
      Malformed(request.email, emailOk), FieldError("email", EmailMessage),
      Blank(request.email), FieldError("email", NotBlankMessage));
    Report(SurroundedByBlank(request.email), FieldError("email", TrimMessage))
    + Report(Malformed(request.email, emailOk), FieldError("email", EmailMessage))
    + Report(Blank(request.email), FieldError("email", NotBlankMessage))
  }

  /** The reports on `password`: one per broken annotation, each at most once. */
  function PasswordReport(request: UserRequest): (m: multiset<FieldError>)
    ensures forall e :: m[e] <= 1
    ensures forall e :: e in m ==> e.field == "password"
    ensures FieldError("password", TrimMessage) in m <==> SurroundedByBlank(request.password)
    ensures FieldError("password", PasswordSizeMessage) in m <==> OutOfRange(request.password, 3, 20)
    ensures FieldError("password", NotBlankMessage) in m <==> Blank(request.password)
  {
    MessagesDistinct();
    ThreeReports(
      SurroundedByBlank(request.password), FieldError("password", TrimMessage),
      OutOfRange(request.password, 3, 20), FieldError("password", PasswordSizeMessage),
      Blank(request.password), FieldError("password", NotBlankMessage));
    Report(SurroundedByBlank(request.password), FieldError("password", TrimMessage))
    + Report(OutOfRange(request.password, 3, 20), FieldError("password", PasswordSizeMessage))
    + Report(Blank(request.password), FieldError("password", NotBlankMessage))
  }

  lemma NameRulesReport(request: UserRequest, emailOk: string -> bool)
    ensures Violations(NameRules, request, emailOk) == NameReport(request)
  {
    var r := NameRules;
    NotBlankMeaning(request.name, emailOk);
    assert Obeys(r[0], request, emailOk) <==> !SurroundedByBlank(request.name);
    assert Obeys(r[1], request, emailOk) <==> !(OutOfRange(request.name, 3, 50));
    assert Obeys(r[2], request, emailOk) <==> !Blank(request.name);
    assert ErrorOf(r[0]) == FieldError("name", TrimMessage);
    assert ErrorOf(r[1]) == FieldError("name", NameSizeMessage);
    assert ErrorOf(r[2]) == FieldError("name", NotBlankMessage);
    ViolationsOfThree(r, request, emailOk);
  }

  lemma EmailRulesReport(request: UserRequest, emailOk: string -> bool)
    ensures Violations(EmailRules, request, emailOk) == EmailReport(request, emailOk)
  {
    var r := EmailRules;
    NotBlankMeaning(request.email, emailOk);
    assert Obeys(r[0], request, emailOk) <==> !SurroundedByBlank(request.email);
    assert Obeys(r[1], request, emailOk) <==> !(Malformed(request.email, emailOk));
    assert Obeys(r[2], request, emailOk) <==> !Blank(request.email);
    assert ErrorOf(r[0]) == FieldError("email", TrimMessage);
    assert ErrorOf(r[1]) == FieldError("email", EmailMessage);
    assert ErrorOf(r[2]) == FieldError("email", NotBlankMessage);
    ViolationsOfThree(r, request, emailOk);
  }

  lemma PasswordRulesReport(request: UserRequest, emailOk: string -> bool)
    ensures Violations(PasswordRules, request, emailOk) == PasswordReport(request)
  {
    var r := PasswordRules;
    NotBlankMeaning(request.password, emailOk);
    assert Obeys(r[0], request, emailOk) <==> !SurroundedByBlank(request.password);
    assert Obeys(r[1], request, emailOk) <==> !(OutOfRange(request.password, 3, 20));
    assert Obeys(r[2], request, emailOk) <==> !Blank(request.password);
    assert ErrorOf(r[0]) == FieldError("password", TrimMessage);
    assert ErrorOf(r[1]) == FieldError("password", PasswordSizeMessage);
    assert ErrorOf(r[2]) == FieldError("password", NotBlankMessage);
    ViolationsOfThree(r, request, emailOk);
  }

  /** The whole rule list reports field by field. */
  lemma RulesReport(request: UserRequest, emailOk: string -> bool)
    ensures Violations(Rules, request, emailOk) == NameReport(request) + EmailReport(request, emailOk) + PasswordReport(request)
  {
    ViolationsAppend(NameRules + EmailRules, PasswordRules, request, emailOk);
    ViolationsAppend(NameRules, EmailRules, request, emailOk);
    NameRulesReport(request, emailOk);
    EmailRulesReport(request, emailOk);
    PasswordRulesReport(request, emailOk);
  }

  /** Reports on different fields never share an error. */
  lemma FieldsApart(n: multiset<FieldError>, e: multiset<FieldError>, p: multiset<FieldError>)
    requires forall x :: x in n ==> x.field == "name"
    requires forall x :: x in e ==> x.field == "email"
    requires forall x :: x in p ==> x.field == "password"
    requires (forall x :: n[x] <= 1) && (forall x :: e[x] <= 1) && (forall x :: p[x] <= 1)
    ensures forall x :: (n + e + p)[x] <= 1
    ensures forall x: FieldError :: x.field == "name" ==> (x in n + e + p <==> x in n)
    ensures forall x: FieldError :: x.field == "email" ==> (x in n + e + p <==> x in e)
    ensures forall x: FieldError :: x.field == "password" ==> (x in n + e + p <==> x in p)
  {
    MessagesDistinct();
  }

  /** Bean validation of a request: every broken rule, as an unordered
      collection in which no error appears twice. */
  function Validate(request: UserRequest, emailOk: string -> bool): (vs: multiset<FieldError>)
    ensures vs == NameReport(request) + EmailReport(request, emailOk) + PasswordReport(request)
    ensures forall e :: vs[e] <= 1
  {
    RulesReport(request, emailOk);
    FieldsApart(NameReport(request), EmailReport(request, emailOk), PasswordReport(request));
    Violations(Rules, request, emailOk)
  }

  /** The `name` errors of a validation are exactly those of the broken `name` annotations. */
  lemma ValidateName(request: UserRequest, emailOk: string -> bool)
    ensures var vs := Validate(request, emailOk);
      && (FieldError("name", TrimMessage) in vs <==> SurroundedByBlank(request.name))
      && (FieldError("name", NameSizeMessage) in vs <==> OutOfRange(request.name, 3, 50))
      && (FieldError("name", NotBlankMessage) in vs <==> Blank(request.name))
  {
    FieldsApart(NameReport(request), EmailReport(request, emailOk), PasswordReport(request));
  }

  /** The `email` errors of a validation are exactly those of the broken `email` annotations. */
  lemma ValidateEmail(request: UserRequest, emailOk: string -> bool)
    ensures var vs := Validate(request, emailOk);
      && (FieldError("email", TrimMessage) in vs <==> SurroundedByBlank(request.email))
      && (FieldError("email", EmailMessage) in vs <==> Malformed(request.email, emailOk))
      && (FieldError("email", NotBlankMessage) in vs <==> Blank(request.email))
  {
    FieldsApart(NameReport(request), EmailReport(request, emailOk), PasswordReport(request));
  }

  /** The `password` errors of a validation are exactly those of the broken `password` annotations. */
  lemma ValidatePassword(request: UserRequest, emailOk: string -> bool)
    ensures var vs := Validate(request, emailOk);
      && (FieldError("password", TrimMessage) in vs <==> SurroundedByBlank(request.password))
      && (FieldError("password", PasswordSizeMessage) in vs <==> OutOfRange(request.password, 3, 20))
      && (FieldError("password", NotBlankMessage) in vs <==> Blank(request.password))
  {
    FieldsApart(NameReport(request), EmailReport(request, emailOk), PasswordReport(request));
  }
}
