/** Error outcomes shared by the backend services.
    A Java method that throws becomes a function or method returning `Err`. */
module Errors {

  /** A nullable reference or an `Optional`: `None` stands for Java's `null`
      or an empty `Optional`. */
  datatype Option<+T> = None | Some(value: T)

  /** The exceptions that escape an uncaught path of the Java code
      (they are not `GeneralException`s and carry no error code). */
  datatype Unchecked =
    | NullPointer            // NullPointerException
    | ArrayIndexOutOfBounds  // ArrayIndexOutOfBoundsException
    | DateTimeParse          // java.time.format.DateTimeParseException
    | DateTimeOutOfRange     // java.time.DateTimeException from YearMonth.of
    | ResponseStatus         // ResponseStatusException from a failed AI-server call
    | ConstraintViolation    // jakarta.validation.ConstraintViolationException when an entity is written

  /** The `ErrorCode`s the services throw inside a `GeneralException`,
      plus the unchecked exceptions above. */
  datatype ErrorCode =
    | UserNotFound
    | DiagnosisNotFound
    | FileExtensionNotSupported
    | FileUploadFailed
    | HospitalNotFound
    | HospitalInvalidSearch
    | InvalidHospitalOpeningHours
    | DiaryAlreadyExists
    | DiaryNotFound
    | DiaryAccessDenied
    | InvalidDiaryInput
    | Raised(exception: Unchecked)

  /** The outcome of an operation that either returns a value or throws. */
  datatype Result<+T> = Ok(value: T) | Err(error: ErrorCode)
}
