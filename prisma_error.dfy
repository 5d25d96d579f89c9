/**
 * Translation of database failures into the HTTP exceptions of the API: a
 * uniqueness violation becomes 409 Conflict, a missing record 404 Not Found,
 * and a thrown value that is not an `Error` 500 Internal Server Error.
 */
module PrismaErrors {
  import opened Common

  const UniqueViolation: string := "P2002"
  const RecordNotFound: string := "P2025"
  const DefaultUniqueMessage: string := "Resource already exists."
  const DefaultNotFoundMessage: string := "Resource not found."
  const UnexpectedMessage: string := "Unexpected database error."

  /** The `Error` values the server can meet: database errors, HTTP exceptions, anything else. */
  datatype ServerError =
    | KnownRequestError(code: string, message: string)
    | ConflictException(message: string)
    | NotFoundException(message: string)
    | InternalServerErrorException(message: string)
    | OtherError(message: string)

  /** A thrown value: an `Error`, or a value of any other kind. */
  datatype Thrown = ErrorValue(error: ServerError) | NonErrorValue

  datatype ErrorContext = ErrorContext(uniqueMessage: Option<string>, notFoundMessage: Option<string>)

  function OrElse(message: Option<string>, default: string): string {
    if message.Some? then message.value else default
  }

  function UniqueMessage(context: Option<ErrorContext>): string {
    if context.Some? then OrElse(context.value.uniqueMessage, DefaultUniqueMessage) else DefaultUniqueMessage
  }

  function NotFoundMessage(context: Option<ErrorContext>): string {
    if context.Some? then OrElse(context.value.notFoundMessage, DefaultNotFoundMessage) else DefaultNotFoundMessage
  }

  /** `translatePrismaError`. */
  function TranslatePrismaError(error: Thrown, context: Option<ErrorContext>): (translated: ServerError)
    ensures error.ErrorValue? && error.error.KnownRequestError? && error.error.code == UniqueViolation ==>
      translated == ConflictException(UniqueMessage(context))
    ensures error.ErrorValue? && error.error.KnownRequestError? && error.error.code == RecordNotFound ==>
      translated == NotFoundException(NotFoundMessage(context))
    ensures error.ErrorValue? && !(error.error.KnownRequestError? && error.error.code in {UniqueViolation, RecordNotFound}) ==>
      translated == error.error
    ensures error.NonErrorValue? ==> translated == InternalServerErrorException(UnexpectedMessage)
  {
    if error.ErrorValue? && error.error.KnownRequestError? && error.error.code == UniqueViolation then
      ConflictException(UniqueMessage(context))
    else if error.ErrorValue? && error.error.KnownRequestError? && error.error.code == RecordNotFound then
      NotFoundException(NotFoundMessage(context))
    else if error.ErrorValue? then error.error
    else InternalServerErrorException(UnexpectedMessage)
  }

  /** The HTTP status a Nest exception answers with (RFC 9110, sections 15.5.10, 15.5.5, 15.6.1). */
  function Status(error: ServerError): (status: nat)
  {
    match error
    case ConflictException(_) => 409
    case NotFoundException(_) => 404
    case _ => 500
  }

  /** The context only chooses the message: the kind of the result never depends on it. */
  lemma ContextOnlyChoosesMessage(error: Thrown, c1: Option<ErrorContext>, c2: Option<ErrorContext>)
    ensures Status(TranslatePrismaError(error, c1)) == Status(TranslatePrismaError(error, c2))
    ensures TranslatePrismaError(error, c1).ConflictException? <==> TranslatePrismaError(error, c2).ConflictException?
    ensures TranslatePrismaError(error, c1).NotFoundException? <==> TranslatePrismaError(error, c2).NotFoundException?
  {
  }

  /** Without a context, or with an empty one, the default messages are used. */
  lemma AbsentContextUsesDefaults(error: Thrown, message: string)
    ensures TranslatePrismaError(error, None) == TranslatePrismaError(error, Some(ErrorContext(None, None)))
    ensures TranslatePrismaError(ErrorValue(KnownRequestError(UniqueViolation, message)), None) ==
      ConflictException("Resource already exists.")
    ensures TranslatePrismaError(ErrorValue(KnownRequestError(RecordNotFound, message)), None) ==
      NotFoundException("Resource not found.")
  {
  }

  /**
   * Translation never yields a database error with a translated code, so an
   * error that was already translated and is translated again stays as it is.
   */
  lemma TranslateIdempotent(error: Thrown, c1: Option<ErrorContext>, c2: Option<ErrorContext>)
    ensures TranslatePrismaError(ErrorValue(TranslatePrismaError(error, c1)), c2) == TranslatePrismaError(error, c1)
  {
  }
}
