/**
  The global Express error handler of the storage service and its `AppError` class
  (backend/db-service/middleware/errorHandler.js).
*/
module Errors {
  import opened Common

  /** One entry of a Sequelize error's `errors` array: `path` may be undefined. */
  datatype ErrorItem = ErrorItem(path: Option<string>, message: string)

  /**
    A thrown JavaScript error as the handler reads it: `name`, `message`, the optional
    `statusCode`, `isOperational`, the Sequelize `errors` array and the `stack` text.
  */
  datatype ThrownError = ThrownError(
    name: string,
    message: string,
    statusCode: Option<int>,
    isOperational: bool,
    errors: seq<ErrorItem>,
    stack: string)

  /**
    `new AppError(message, statusCode)`: an `Error` (so its name stays `"Error"`) that
    keeps the given status code and is marked operational. Only the first line of the
    captured stack trace is modelled.
  */
  function NewAppError(message: string, statusCode: int): (e: ThrownError)
    ensures e.name == "Error" && e.message == message
    ensures e.statusCode == Some(statusCode) && e.isOperational
    ensures e.errors == []
  {
    ThrownError("Error", message, Some(statusCode), true, [], "Error: " + message)
  }

  /** A plain `new Error(message)` as thrown by library code. */
  function PlainError(message: string): ThrownError
  {
    ThrownError("Error", message, None, false, [], "Error: " + message)
  }

  datatype FieldError = FieldError(field: Option<string>, message: string)

  /** The JSON body and status code the handler answers with. */
  datatype ErrorResponse = ErrorResponse(
    status: int,
    success: bool,
    message: string,
    errors: Option<seq<FieldError>>,
    stack: Option<string>)

  const ValidationErrorName := "SequelizeValidationError"
  const UniqueConstraintErrorName := "SequelizeUniqueConstraintError"
  const ForeignKeyErrorName := "SequelizeForeignKeyConstraintError"

  const DefaultMessage := "Erreur serveur interne"
  const InvalidDataMessage := "Données invalides"
  const InvalidReferenceMessage := "Référence invalide"
  const RateLimitMessage := "Trop de requêtes, veuillez réessayer plus tard"

  predicate IsSequelizeConstraintKind(name: string)
  {
    name == ValidationErrorName || name == UniqueConstraintErrorName || name == ForeignKeyErrorName
  }

  /** `err.statusCode || 500`: a missing or zero status code means 500. */
  function StatusOf(err: ThrownError): int
  {
    if err.statusCode.Some? && err.statusCode.value != 0 then err.statusCode.value else 500
  }

  /** `err.message || 'Erreur serveur interne'`. */
  function MessageOf(err: ThrownError): string
  {
    if err.message != "" then err.message else DefaultMessage
  }

  /** `err.errors.map(e => ({ field: e.path, message: e.message }))`. */
  function FieldErrors(items: seq<ErrorItem>): (r: seq<FieldError>)
    ensures |r| == |items|
    ensures forall i :: 0 <= i < |items| ==> r[i] == FieldError(items[i].path, items[i].message)
  {
    if items == [] then [] else [FieldError(items[0].path, items[0].message)] + FieldErrors(items[1..])
  }

  /** `err.errors[0]?.path || 'unknown'`. */
  function DuplicateField(err: ThrownError): string
  {
    if err.errors != [] && err.errors[0].path.Some? && err.errors[0].path.value != "" then
      err.errors[0].path.value
    else
      "unknown"
  }

  /**
    The global error handler. It starts from the error's own status and message,
    answers the three Sequelize errors at once with their fixed status, replaces the
    message of a 429, asks for the uploaded file (if any) to be removed, and adds the
    stack only in development for server errors. `uploadedFilePath` is `req.file.path`
    (`None` without a file); `nodeEnv` is `process.env.NODE_ENV`. Logging is not modelled.
  */
  method HandleError(err: ThrownError, uploadedFilePath: Option<string>, nodeEnv: string)
    returns (resp: ErrorResponse, unlink: Option<string>)
    ensures !resp.success
    ensures err.name == ValidationErrorName ==>
      resp == ErrorResponse(400, false, InvalidDataMessage, Some(FieldErrors(err.errors)), None)
    ensures err.name == UniqueConstraintErrorName ==>
      resp == ErrorResponse(409, false, DuplicateField(err) + " déjà utilisé", None, None)
    ensures err.name == ForeignKeyErrorName ==>
      resp == ErrorResponse(400, false, InvalidReferenceMessage, None, None)
    ensures IsSequelizeConstraintKind(err.name) ==> unlink == None
    ensures !IsSequelizeConstraintKind(err.name) ==>
      && resp.status == StatusOf(err)
      && resp.message == (if err.statusCode == Some(429) then RateLimitMessage else MessageOf(err))
      && resp.errors == None
      && (resp.stack.Some? <==> nodeEnv == "development" && StatusOf(err) >= 500)
      && (resp.stack.Some? ==> resp.stack.value == err.stack)
      && (unlink.Some? <==> uploadedFilePath.Some? && uploadedFilePath.value != "")
      && (unlink.Some? ==> unlink == uploadedFilePath)
  {
    var statusCode := if err.statusCode.Some? && err.statusCode.value != 0 then err.statusCode.value else 500;
    var message := if err.message != "" then err.message else DefaultMessage;
    unlink := None;

    if err.name == ValidationErrorName {
      statusCode := 400;
      message := InvalidDataMessage;
      var errors := FieldErrors(err.errors);
      resp := ErrorResponse(statusCode, false, message, Some(errors), None);
      return;
    }

    if err.name == UniqueConstraintErrorName {
      statusCode := 409;
      var field := DuplicateField(err);
      resp := ErrorResponse(statusCode, false, field + " déjà utilisé", None, None);
      return;
    }

    if err.name == ForeignKeyErrorName {
      statusCode := 400;
      message := InvalidReferenceMessage;
      resp := ErrorResponse(statusCode, false, message, None, None);
      return;
    }

    if err.statusCode == Some(429) {
      message := RateLimitMessage;
    }

    if uploadedFilePath.Some? && uploadedFilePath.value != "" {
      unlink := uploadedFilePath;
    }

    var stack := if nodeEnv == "development" && statusCode >= 500 then Some(err.stack) else None;
    resp := ErrorResponse(statusCode, false, message, None, stack);
  }

  /**
    `asyncHandler`: a controller's rejected promise goes to the error handler. For an
    `AppError` the answer carries the error's own status and message (a 429 gets the
    fixed rate-limit text, an empty message the default one).
  */
  method RespondToAppError(message: string, statusCode: int, uploadedFilePath: Option<string>, nodeEnv: string)
    returns (resp: ErrorResponse)
    requires statusCode != 0
    ensures !resp.success && resp.status == statusCode
    ensures resp.message ==
      if statusCode == 429 then RateLimitMessage
      else if message == "" then DefaultMessage
      else message
    ensures resp.stack.Some? <==> nodeEnv == "development" && statusCode >= 500
  {
    var unlink;
    resp, unlink := HandleError(NewAppError(message, statusCode), uploadedFilePath, nodeEnv);
  }
}
