/** The controller advice of the controller.exception package: it turns a
    duplicate key, a failed binding and a missing object into an error
    response. The clock reading and the request path are parameters. */
module ExceptionHandler {
  import opened Domain
  import opened JavaString

  /** The text a duplicate-key message must contain to be blamed on the e-mail index. */
  const EmailDupKeyMarker: string := "email dup key"
  const EmailExistsMessage: string := "E-mail already exists."
  const DupKeyMessage: string := "Dup key exception."
  const ValidationPhrase: string := "Validation Error"
  const ValidationMessage: string := "Error on validation attributes"

  /** verifyDupKey: a case-sensitive substring test picks one of two messages. */
  function VerifyDupKey(message: string): (r: string)
    ensures r == EmailExistsMessage <==> exists i :: OccursAt(message, EmailDupKeyMarker, i)
    ensures r == EmailExistsMessage || r == DupKeyMessage
  {
    if Contains(message, EmailDupKeyMarker) then EmailExistsMessage else DupKeyMessage
  }

  /** addError applied to each field error in turn, as the forEach does. */
  function AddErrors(errors: seq<FieldMessage>, fieldErrors: seq<FieldError>): (r: seq<FieldMessage>)
    ensures |r| == |errors| + |fieldErrors|
    ensures r[..|errors|] == errors
    ensures forall k :: 0 <= k < |fieldErrors| ==>
      r[|errors| + k] == FieldMessage(fieldErrors[k].field, fieldErrors[k].defaultMessage)
    decreases |fieldErrors|
  {
    if fieldErrors == [] then errors
    else
      var fe := fieldErrors[0];
      assert forall k :: 1 <= k < |fieldErrors| ==> fieldErrors[1..][k - 1] == fieldErrors[k];
      AddErrors(errors + [FieldMessage(fe.field, fe.defaultMessage)], fieldErrors[1..])
  }

  /** duplicateKeyException. */
  function DuplicateKey(message: string, path: string, now: Timestamp): (r: ErrorResponse)
    ensures r.httpStatus == BadRequest && r.body.Standard?
    ensures var e := r.body.standard;
      && e.timestamp == now && e.status == BadRequest && e.error == BadRequestPhrase && e.path == path
      && e.message == VerifyDupKey(message)
      && (e.message == EmailExistsMessage <==> exists i :: OccursAt(message, EmailDupKeyMarker, i))
  {
    ErrorResponse(BadRequest, Standard(StandardError(now, BadRequest, BadRequestPhrase, VerifyDupKey(message), path)))
  }

  /** validationError: the fixed header, then one entry per field error, in binding order. */
  function BindFailure(fieldErrors: seq<FieldError>, path: string, now: Timestamp): (r: ErrorResponse)
    ensures r.httpStatus == BadRequest && r.body.Validation?
    ensures var v := r.body.validation;
      && v.timestamp == now && v.path == path && v.status == BadRequest
      && v.error == ValidationPhrase && v.message == ValidationMessage
      && |v.errors| == |fieldErrors|
      && forall k :: 0 <= k < |fieldErrors| ==>
           v.errors[k] == FieldMessage(fieldErrors[k].field, fieldErrors[k].defaultMessage)
  {
    var errors := AddErrors([], fieldErrors);
    ErrorResponse(BadRequest, Validation(ValidationError(now, path, BadRequest, ValidationPhrase, ValidationMessage, errors)))
  }

  /** objectNotFoundException: 404 with the exception's own message. */
  function ObjectNotFound(message: string, path: string, now: Timestamp): (r: ErrorResponse)
    ensures r.httpStatus == NotFound && r.body.Standard?
    ensures var e := r.body.standard;
      && e.timestamp == now && e.status == NotFound && e.error == NotFoundPhrase
      && e.message == message && e.path == path
  {
    ErrorResponse(NotFound, Standard(StandardError(now, NotFound, NotFoundPhrase, message, path)))
  }

  /** Dispatch by exception type; an exception without a handler is not translated. */
  function Handle(e: Exception, path: string, now: Timestamp): (r: Option<ErrorResponse>)
    ensures r.None? <==> e.OtherException?
    ensures r.Some? ==> r.value.body.Path() == path && r.value.body.Time() == now
    ensures r.Some? ==> r.value.httpStatus == r.value.body.Status()
    ensures r.Some? ==> (r.value.httpStatus == NotFound <==> e.ObjectNotFoundException?)
    ensures r.Some? ==> (r.value.httpStatus == BadRequest <==> !e.ObjectNotFoundException?)
    ensures e.DuplicateKeyException? ==> r == Some(DuplicateKey(e.message, path, now))
    ensures e.WebExchangeBindException? ==> r == Some(BindFailure(e.fieldErrors, path, now))
    ensures e.ObjectNotFoundException? ==> r == Some(ObjectNotFound(e.message, path, now))
  {
    match e
    case DuplicateKeyException(m) => Some(DuplicateKey(m, path, now))
    case WebExchangeBindException(fes) => Some(BindFailure(fes, path, now))
    case ObjectNotFoundException(m) => Some(ObjectNotFound(m, path, now))
    case OtherException(_) => None
  }
}
