/** The older controller advice of the controller.exceptions package: the
    same duplicate-key and binding handlers, and no not-found handler. */
module LegacyExceptionHandler {
  import opened Domain
  import opened JavaString
  import ExceptionHandler

  /** verifyDupKey of the older advice: the same marker and the same two messages. */
  function VerifyDupKey(message: string): (r: string)
    ensures r == ExceptionHandler.EmailExistsMessage <==> exists i :: OccursAt(message, ExceptionHandler.EmailDupKeyMarker, i)
    ensures r == ExceptionHandler.EmailExistsMessage || r == ExceptionHandler.DupKeyMessage
  {
    if Contains(message, ExceptionHandler.EmailDupKeyMarker) then ExceptionHandler.EmailExistsMessage
    else ExceptionHandler.DupKeyMessage
  }

  /** duplicateKeyException of the older advice. */
  function DuplicateKey(message: string, path: string, now: Timestamp): (r: ErrorResponse)
    ensures r.httpStatus == BadRequest && r.body.Standard?
    ensures var e := r.body.standard;
      && e.timestamp == now && e.status == BadRequest && e.error == BadRequestPhrase && e.path == path
      && e.message == VerifyDupKey(message)
  {
    ErrorResponse(BadRequest, Standard(StandardError(now, BadRequest, BadRequestPhrase, VerifyDupKey(message), path)))
  }

  /** validationError of the older advice: the same forEach of addError. */
  function BindFailure(fieldErrors: seq<FieldError>, path: string, now: Timestamp): (r: ErrorResponse)
    ensures r.httpStatus == BadRequest && r.body.Validation?
    ensures var v := r.body.validation;
      && v.timestamp == now && v.path == path && v.status == BadRequest
      && v.error == ExceptionHandler.ValidationPhrase && v.message == ExceptionHandler.ValidationMessage
      && |v.errors| == |fieldErrors|
      && forall k :: 0 <= k < |fieldErrors| ==>
           v.errors[k] == FieldMessage(fieldErrors[k].field, fieldErrors[k].defaultMessage)
  {
    var errors := ExceptionHandler.AddErrors([], fieldErrors);
    ErrorResponse(BadRequest, Validation(ValidationError(
      now, path, BadRequest, ExceptionHandler.ValidationPhrase, ExceptionHandler.ValidationMessage, errors)))
  }

  /** Dispatch of the older advice: a missing object is not translated here. */
  function Handle(e: Exception, path: string, now: Timestamp): (r: Option<ErrorResponse>)
    ensures r.Some? <==> e.DuplicateKeyException? || e.WebExchangeBindException?
    ensures r.Some? ==> r.value.httpStatus == BadRequest && r.value.body.Status() == BadRequest
    ensures r.Some? ==> r.value.body.Path() == path && r.value.body.Time() == now
  {
    match e
    case DuplicateKeyException(m) => Some(DuplicateKey(m, path, now))
    case WebExchangeBindException(fes) => Some(BindFailure(fes, path, now))
    case _ => None
  }

  /** Both advices pick the same duplicate-key message. */
  lemma VerifyDupKeyAgrees(message: string)
    ensures VerifyDupKey(message) == ExceptionHandler.VerifyDupKey(message)
  {
  }

  /** For a duplicate key or a failed binding the two advices answer alike. */
  lemma HandlersAgree(e: Exception, path: string, now: Timestamp)
    requires e.DuplicateKeyException? || e.WebExchangeBindException?
    ensures Handle(e, path, now) == ExceptionHandler.Handle(e, path, now)
  {
    if e.DuplicateKeyException? {
      VerifyDupKeyAgrees(e.message);
    }
  }

  /** Only the newer advice answers a missing object. */
  lemma NotFoundOnlyInNewer(message: string, path: string, now: Timestamp)
    ensures Handle(ObjectNotFoundException(message), path, now).None?
    ensures ExceptionHandler.Handle(ObjectNotFoundException(message), path, now).Some?
  {
  }
}
