# Request-handling rules of the webflux-course user service

A Dafny model of the request-handling core of a Spring WebFlux user CRUD
service: what happens to a `POST /users` body before and after it reaches the
store.

- **The @TrimString rule** (`TrimStringValidator`). `isValid` accepts null, or
  a value whose `trim()` keeps its `length()`. `String.trim` is modelled as the
  JDK's two scans, which strip every char at or below U+0020 (`JavaString.Trim`).
  `length()` counts UTF-16 code units (`JavaString.JavaLength`).
- **The bean constraints of `UserRequest`** (`UserRequestValidation`). Each
  field's annotations are an explicit rule list of (field, constraint, message).
  `Validate` reports every broken rule, as a multiset of field errors: Bean
  Validation evaluates the annotations independently and promises no order.
  - `@NotBlank` means non-null and `trim().length() > 0`.
  - `@Size` passes null and bounds `length()` otherwise.
  - `@Email` passes null and the empty string, and otherwise defers to a
    format check `emailOk` handed in by the caller. Two facts about `emailOk`
    are taken as hypotheses, each only where a lemma needs it. The first,
    `RejectsWithoutAt`, is that it rejects a non-empty address with no `@`.
    The second is that it accepts the test address "maria@mail.com".
- **The create mapping** (`UserMapper.ToEntity`). The entity has no id and the
  request's three fields, copied as they are.
- **The service save** (`UserService.Save`). It is one repository save of the
  mapped entity. The repository is a function parameter. The result records
  the repository calls made and what came back.
- **The two controller advices.**
  - `ExceptionHandler` models controller/exception. It translates a duplicate
    key, a failed binding and a missing object.
  - `LegacyExceptionHandler` models controller/exceptions. It is the older
    copy, which has no not-found handler.
  - `verifyDupKey` is a case-sensitive `String.contains` test
    (`JavaString.Contains`).
- **The controller-test scenarios** (`Scenarios`) are stated over validator,
  service and advice together.

A Java `String` reference is `Option<string>`, with `None` for null. The clock
reading (`LocalDateTime.now()`) and the request path are parameters of the
handlers.

Every annotation is checked on its own, so an empty `name` breaks both
`@NotBlank` and `@Size(min = 3)`, because its length 0 is below 3. A null
`name` breaks `@NotBlank` alone, because `@Size` and `@TrimString` pass null
(`Scenarios.EmptyNameReportsTwice`). Likewise `@Email` passes the empty string,
so an empty `email` reports only "must not be null or empty"
(`Scenarios.EmptyAddressIsOnlyBlank`).

## Model

| member | source | states |
|---|---|---|
| JavaString.Trim | src/main/java/com/vinnilmg/webfluxcourse/validator/TrimStringValidator.java:12 | trim() result is empty exactly when every char is at or below U+0020, otherwise it begins and ends with a kept char; never longer than the input |
| JavaString.TrimWindow | src/main/java/com/vinnilmg/webfluxcourse/validator/TrimStringValidator.java:12 | trim() returns s with everything before its first and after its last char above U+0020 cut off: what is cut is all at or below U+0020, and the ends kept are above it |
| JavaString.TrimUnique | src/main/java/com/vinnilmg/webfluxcourse/validator/TrimStringValidator.java:12 | any window of the string whose outside is all strippable chars and whose ends are kept chars is what trim() returns |
| JavaString.TrimIdempotent | src/main/java/com/vinnilmg/webfluxcourse/validator/TrimStringValidator.java:12 | trimming a trimmed string changes nothing |
| JavaString.TrimIdentity | src/main/java/com/vinnilmg/webfluxcourse/validator/TrimStringValidator.java:12 | trim() leaves a string unchanged exactly when it is empty or both its ends are above U+0020 |
| JavaString.TrimKeepsLength | src/main/java/com/vinnilmg/webfluxcourse/validator/TrimStringValidator.java:12 | trim().length() == length() exactly when trim removed nothing |
| JavaString.JavaLength | src/main/java/com/vinnilmg/webfluxcourse/validator/TrimStringValidator.java:12 | length() counts UTF-16 code units: at least one and at most two per char |
| JavaString.JavaLengthAppend | src/main/java/com/vinnilmg/webfluxcourse/validator/TrimStringValidator.java:12 | length() of a concatenation is the sum of the lengths |
| JavaString.JavaLengthBmp | src/main/java/com/vinnilmg/webfluxcourse/validator/TrimStringValidator.java:12 | for text without supplementary characters, length() is the number of chars |
| JavaString.Contains | src/main/java/com/vinnilmg/webfluxcourse/controller/exception/ControllerExceptionHandler.java:70 | contains(p) holds exactly when p occurs at some index of the string |
| TrimStringValidator.IsValid | src/main/java/com/vinnilmg/webfluxcourse/validator/TrimStringValidator.java:11-12 | null is valid; a non-null value is valid exactly when it is empty or neither end is at or below U+0020 |
| TrimStringValidator.ContextIgnored | src/main/java/com/vinnilmg/webfluxcourse/validator/TrimStringValidator.java:11-12 | the verdict does not depend on the validator context |
| TrimStringValidator.EmptyIsValid | src/main/java/com/vinnilmg/webfluxcourse/validator/TrimStringValidator.java:12 | the empty string passes |
| TrimStringValidator.LeadingSpaceIsInvalid | src/test/java/com/vinnilmg/webfluxcourse/controller/UserControllerImplTest.java:68 | " Mariazinha" fails |
| TrimStringValidator.TrimmedIsValid | src/main/java/com/vinnilmg/webfluxcourse/validator/TrimStringValidator.java:12 | whatever trim() returns passes |
| UserRequestValidation.Satisfies | src/main/java/com/vinnilmg/webfluxcourse/model/request/UserRequest.java:10-22 | null breaks @NotBlank only; a non-null value meets @NotBlank iff trim() leaves something, @TrimString iff trim() changes nothing, @Email iff it is empty or the format check accepts it |
| UserRequestValidation.NotBlankMeaning | src/main/java/com/vinnilmg/webfluxcourse/model/request/UserRequest.java:12 | @NotBlank holds exactly when the value is non-null and has a char above U+0020 |
| UserRequestValidation.Violations | src/main/java/com/vinnilmg/webfluxcourse/model/request/UserRequest.java:8-24 | at most one error per rule |
| UserRequestValidation.ViolationsMeaning | src/main/java/com/vinnilmg/webfluxcourse/model/request/UserRequest.java:8-24 | an error is among the violations exactly when some rule reporting it is broken |
| UserRequestValidation.ViolationsAppend | src/main/java/com/vinnilmg/webfluxcourse/model/request/UserRequest.java:8-24 | rules are checked independently: the violations of two rule lists together are the union of each list's violations |
| UserRequestValidation.NameReport | src/main/java/com/vinnilmg/webfluxcourse/model/request/UserRequest.java:10-12 | the name reports: the trim error iff a blank at an end, the size error iff non-null with length outside 3..50, the not-blank error iff null or all blank; each at most once, all on field "name" |
| UserRequestValidation.EmailReport | src/main/java/com/vinnilmg/webfluxcourse/model/request/UserRequest.java:15-17 | the email reports: the trim error iff a blank at an end, "invalid e-mail" iff non-null, non-empty and rejected by the format check, the not-blank error iff null or all blank; each at most once |
| UserRequestValidation.PasswordReport | src/main/java/com/vinnilmg/webfluxcourse/model/request/UserRequest.java:20-22 | the password reports: the trim error, the size error iff non-null with length outside 3..20, the not-blank error; each at most once |
| UserRequestValidation.NameRulesReport | src/main/java/com/vinnilmg/webfluxcourse/model/request/UserRequest.java:10-12 | the three annotations on name, run as rules, report exactly NameReport |
| UserRequestValidation.EmailRulesReport | src/main/java/com/vinnilmg/webfluxcourse/model/request/UserRequest.java:15-17 | the three annotations on email, run as rules, report exactly EmailReport |
| UserRequestValidation.PasswordRulesReport | src/main/java/com/vinnilmg/webfluxcourse/model/request/UserRequest.java:20-22 | the three annotations on password, run as rules, report exactly PasswordReport |
| UserRequestValidation.RulesReport | src/main/java/com/vinnilmg/webfluxcourse/model/request/UserRequest.java:8-24 | the whole rule list reports field by field |
| UserRequestValidation.Validate | src/main/java/com/vinnilmg/webfluxcourse/model/request/UserRequest.java:8-24 | the violations are the name, email and password reports together, and no field error appears twice |
| UserRequestValidation.ValidateName | src/main/java/com/vinnilmg/webfluxcourse/model/request/UserRequest.java:10-12 | each name error is in the violations exactly when its annotation is broken |
| UserRequestValidation.ValidateEmail | src/main/java/com/vinnilmg/webfluxcourse/model/request/UserRequest.java:15-17 | each email error is in the violations exactly when its annotation is broken |
| UserRequestValidation.ValidatePassword | src/main/java/com/vinnilmg/webfluxcourse/model/request/UserRequest.java:20-22 | each password error is in the violations exactly when its annotation is broken |
| UserMapper.ToEntity | src/main/java/com/vinnilmg/webfluxcourse/mapper/UserMapper.java:11-12 | the entity has no id and the request's name, email and password |
| UserMapper.ToEntityInjective | src/main/java/com/vinnilmg/webfluxcourse/mapper/UserMapper.java:12 | two requests map to equal entities exactly when they are equal |
| UserService.Save | src/main/java/com/vinnilmg/webfluxcourse/service/UserService.java:18-20 | exactly one repository call, a save of an entity with no id and the request's fields, and the outcome is what that save returned |
| UserService.SaveFailurePropagates | src/main/java/com/vinnilmg/webfluxcourse/service/UserService.java:19 | a repository failure comes back unchanged |
| UserService.SaveReturnsRepositoryResult | src/test/java/com/vinnilmg/webfluxcourse/service/UserServiceTest.java:41-46 | a stored user comes back unchanged |
| UserService.SaveConsultsOnlyTheEntity | src/main/java/com/vinnilmg/webfluxcourse/service/UserService.java:19 | two repositories that answer the mapped entity alike give the same run: save looks at nothing else |
| ExceptionHandler.VerifyDupKey | src/main/java/com/vinnilmg/webfluxcourse/controller/exception/ControllerExceptionHandler.java:69-74 | "E-mail already exists." exactly when the message contains "email dup key", otherwise "Dup key exception." |
| ExceptionHandler.AddErrors | src/main/java/com/vinnilmg/webfluxcourse/controller/exception/ControllerExceptionHandler.java:48 | appending the field errors keeps the entries already there and adds one (field, defaultMessage) entry per field error, in order |
| ExceptionHandler.DuplicateKey | src/main/java/com/vinnilmg/webfluxcourse/controller/exception/ControllerExceptionHandler.java:19-33 | 400, "Bad Request", the classified message, the request path and the clock reading |
| ExceptionHandler.BindFailure | src/main/java/com/vinnilmg/webfluxcourse/controller/exception/ControllerExceptionHandler.java:35-51 | 400, "Validation Error", "Error on validation attributes", the path, and exactly one entry per field error in binding order |
| ExceptionHandler.ObjectNotFound | src/main/java/com/vinnilmg/webfluxcourse/controller/exception/ControllerExceptionHandler.java:53-67 | 404, "Not Found", the exception's message verbatim and the path |
| ExceptionHandler.Handle | src/main/java/com/vinnilmg/webfluxcourse/controller/exception/ControllerExceptionHandler.java:19-67 | each handled exception goes to its handler; only a missing object gives 404, the rest 400; the status line matches the body; every envelope carries the request path |
| LegacyExceptionHandler.VerifyDupKey | src/main/java/com/vinnilmg/webfluxcourse/controller/exceptions/ControllerExceptionHandler.java:52-57 | the same substring rule and the same two messages |
| LegacyExceptionHandler.DuplicateKey | src/main/java/com/vinnilmg/webfluxcourse/controller/exceptions/ControllerExceptionHandler.java:18-32 | 400, "Bad Request", the classified message and the request path |
| LegacyExceptionHandler.BindFailure | src/main/java/com/vinnilmg/webfluxcourse/controller/exceptions/ControllerExceptionHandler.java:34-50 | 400, "Validation Error", "Error on validation attributes", the path and one entry per field error, in binding order, built by the same `addError` loop |
| LegacyExceptionHandler.Handle | src/main/java/com/vinnilmg/webfluxcourse/controller/exceptions/ControllerExceptionHandler.java:15-59 | only a duplicate key or a failed binding is answered, always with 400 and the request path |
| LegacyExceptionHandler.VerifyDupKeyAgrees | src/main/java/com/vinnilmg/webfluxcourse/controller/exceptions/ControllerExceptionHandler.java:52-57 | both advices classify every message alike |
| LegacyExceptionHandler.HandlersAgree | src/main/java/com/vinnilmg/webfluxcourse/controller/exceptions/ControllerExceptionHandler.java:18-50 | for a duplicate key or a failed binding both advices give the same response |
| LegacyExceptionHandler.NotFoundOnlyInNewer | src/main/java/com/vinnilmg/webfluxcourse/controller/exception/ControllerExceptionHandler.java:53-67 | a missing object is answered by the newer advice only |
| Scenarios.AddressWithoutAtFails | src/main/java/com/vinnilmg/webfluxcourse/model/request/UserRequest.java:16 | a format check that rejects addresses without '@' rejects "mariamail.com" |
| Scenarios.OneViolationResponse | src/main/java/com/vinnilmg/webfluxcourse/controller/exception/ControllerExceptionHandler.java:35-51 | a binding result with one violation lists it alone, and the response carries just that entry |
| Scenarios.ValidRequestPasses | src/test/java/com/vinnilmg/webfluxcourse/controller/UserControllerImplTest.java:51-60 | given a format check that accepts "maria@mail.com", ("Mariazinha", "maria@mail.com", "password123") has no violation |
| Scenarios.LeadingSpaceNameViolation | src/test/java/com/vinnilmg/webfluxcourse/controller/UserControllerImplTest.java:68-82 | given a format check that accepts "maria@mail.com", (" Mariazinha", ...) breaks only @TrimString on name |
| Scenarios.LeadingSpaceNameRejected | src/test/java/com/vinnilmg/webfluxcourse/controller/UserControllerImplTest.java:68-82 | given a format check that accepts "maria@mail.com", in any binding order the response is the full 400 validation envelope on /users with the single trim entry |
| Scenarios.ShortNameViolation | src/test/java/com/vinnilmg/webfluxcourse/controller/UserControllerImplTest.java:88-102 | given a format check that accepts "maria@mail.com", ("ma", ...) breaks only @Size on name |
| Scenarios.ShortNameRejected | src/test/java/com/vinnilmg/webfluxcourse/controller/UserControllerImplTest.java:88-102 | given a format check that accepts "maria@mail.com", in any binding order the response is the full 400 validation envelope with the single size entry |
| Scenarios.AddressWithoutAtViolation | src/test/java/com/vinnilmg/webfluxcourse/controller/UserControllerImplTest.java:108-122 | ("Maria", "mariamail.com", ...) breaks only @Email |
| Scenarios.AddressWithoutAtRejected | src/test/java/com/vinnilmg/webfluxcourse/controller/UserControllerImplTest.java:108-122 | its response is the full 400 validation envelope with the single "invalid e-mail" entry |
| Scenarios.EmptyNameReportsTwice | src/main/java/com/vinnilmg/webfluxcourse/model/request/UserRequest.java:11-12 | an empty name reports both "must not be null or empty" and the size error, but not the trim error; a null name reports the not-blank error alone |
| Scenarios.EmptyAddressIsOnlyBlank | src/main/java/com/vinnilmg/webfluxcourse/model/request/UserRequest.java:15-17 | an empty address reports "must not be null or empty" but neither "invalid e-mail" nor the trim error, whatever the format check |
| Scenarios.DuplicateEmailOnSave | src/main/java/com/vinnilmg/webfluxcourse/service/UserService.java:19 | a duplicate e-mail key raised by the repository's save becomes 400 "E-mail already exists." |

## Left out

- The clock. `LocalDateTime.now()` is I/O, so the handlers take an opaque `Timestamp` reading as a parameter.
- Framework wrapping: Reactor `Mono`/`Flux`, `ResponseEntity` and `@ControllerAdvice` dispatch. Each handler is a plain function. Each advice's `Handle` returns `None` for an exception that advice has no handler for, and what the framework then does with it is not modelled.
- MongoDB. The repository's `save` is a function parameter, and nothing is assumed about id assignment or storage.
- The internals of the jakarta `@Email` pattern. The library source is not part of this model, so the format check is an opaque parameter. Two facts are assumed of it, each as the hypothesis of the lemmas that need it, and both are pinned by the controller tests. An address without `@` is rejected (`RejectsWithoutAt`). The test address "maria@mail.com" is accepted. Without the second, the scenarios built on that address do not follow. The validator's own short-circuit for null and for the empty string is modelled: neither is checked against the format.
- Hibernate's `@NotBlank` and `@Size` validators. Their source is not part of this model either. They are modelled by their documented meaning: non-null and non-blank after `trim()`; null passes, otherwise `length()` lies within the bounds.
- Violation order. Bean Validation promises none, so `Validate` returns a multiset. The scenario lemmas accept any binding order that has those contents.
- ExceptionHandler.VerifyDupKey: a null exception message, which would throw in `contains`, is not modelled; messages are strings.
- LegacyExceptionHandler.VerifyDupKey: likewise, a null message is not modelled.
- `UserControllerImpl`. Its `save` is a one-line 201 wrapper around the service, and `find`, `findAll`, `update` and `delete` are stubs returning null.
- The merge mapping `toEntity(request, existing)` and the service's `findById`, `findAll`, `update` and `delete`. The tests mock them, but their implementations are not part of this model. `RepositoryCall` names them only to state that `save` issues no such call.
- `StandardError`, `ValidationError` and `ObjectNotFoundException`. Their class sources are not part of this model. The envelopes are records holding the fields the handlers set, and `addError` is taken as appending one `(fieldName, message)` entry.
- Each advice builds its own `StandardError` and `ValidationError` class, from its own package. Their sources are not part of this model, and the model merges each pair into one `Domain` record with the fields both set. `LegacyExceptionHandler.HandlersAgree` states equal responses under that merge; it does not compare the two classes.
- The test scaffolding: Mockito, WebTestClient and StepVerifier.
