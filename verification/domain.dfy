/** The records that travel through the user request pipeline: the request
    DTO, the persisted entity, the failures the boundary translates, and the
    error envelopes it produces. */
module Domain {

  /** A Java reference that may be null. */
  datatype Option<+T> = None | Some(value: T)

  /** The outcome of an asynchronous call: a value, or the exception it signals. */
  datatype Result<+T, +E> = Ok(value: T) | Err(error: E)

  /** The input DTO of POST /users. Every component is a nullable Java String. */
  datatype UserRequest = UserRequest(name: Option<string>, email: Option<string>, password: Option<string>)

  /** The persisted user document; `id` is assigned by the store. */
  datatype User = User(id: Option<string>, name: Option<string>, email: Option<string>, password: Option<string>)

  /** One field error of a binding result: the field name and the default message. */
  datatype FieldError = FieldError(field: string, defaultMessage: string)

  /** The failures that reach the controller boundary. */
  datatype Exception =
    | DuplicateKeyException(message: string)
    | WebExchangeBindException(fieldErrors: seq<FieldError>)
    | ObjectNotFoundException(message: string)
    | OtherException(message: string)

  /** A reading of the clock, taken outside the model and passed in. */
  datatype Timestamp = Timestamp(reading: int)

  /** The JSON error envelope. */
  datatype StandardError = StandardError(timestamp: Timestamp, status: int, error: string, message: string, path: string)

  /** One entry of the `errors` list of a validation envelope. */
  datatype FieldMessage = FieldMessage(fieldName: string, message: string)

  /** The validation envelope: a StandardError plus the list of field messages. */
  datatype ValidationError = ValidationError(
    timestamp: Timestamp, path: string, status: int, error: string, message: string, errors: seq<FieldMessage>)

  datatype ErrorBody = Standard(standard: StandardError) | Validation(validation: ValidationError)
  {
    function Path(): string {
      match this
      case Standard(e) => e.path
      case Validation(v) => v.path
    }

    function Status(): int {
      match this
      case Standard(e) => e.status
      case Validation(v) => v.status
    }

    function Time(): Timestamp {
      match this
      case Standard(e) => e.timestamp
      case Validation(v) => v.timestamp
    }
  }

  /** A response entity: the HTTP status line and its body. */
  datatype ErrorResponse = ErrorResponse(httpStatus: int, body: ErrorBody)

  /** HttpStatus.BAD_REQUEST and HttpStatus.NOT_FOUND: value and reason phrase. */
  const BadRequest: int := 400
  const BadRequestPhrase: string := "Bad Request"
  const NotFound: int := 404
  const NotFoundPhrase: string := "Not Found"
}
