/** The error codes and the exceptions the core raises, with the HTTP status
    each application exception is rendered with. */
module Errors {
  import opened Wrappers

  /** The fixed registry of error codes (the source enumerates these by reflection). */
  datatype ErrorCode =
    | ENTITY_NOT_FOUND
    | PROPERTY_NOT_FOUND
    | SERVER_ERROR
    | VALIDATION_ERROR
    | AUTHENTICATION_DENIED
    | ZODIAC_SIGN_NOT_FOUND
    | UNPROCESSABLE_ENTITY
    | EMAIL_VERIFICATION_FAILED
    | RESET_PASSWORD
    | USER_NOT_ENABLE
    | CONTACT_US
    | CODE_VERIFICATION_FAILED
    | PASSWORD_CODE_VERIFICATION
    | USER_DUPLICATION
    | PROFILE_DUPLICATION
    | INCORRECT_REASON
    | NUMBER_PICTURE_EXCEED
    | NUMBER_PICTURE_PROFILE_EXCEED
    | CURRENCY_NOT_FOUND

  /** Every exception the modelled code can end in. The first five are the
      application's own `CustomException`s; the rest are the JVM and library
      exceptions the source lets propagate. */
  datatype Exception =
    | AccessDenied(code: ErrorCode, message: string)
    | EntityNotFound(code: ErrorCode, message: string)
    | PropertyNotFound(code: ErrorCode, message: string)
    | Unprocessed(code: ErrorCode, message: string)
    | UnprocessableEntity(message: string, code: ErrorCode)
    /** java.lang.IllegalArgumentException */
    | IllegalArgument(text: string)
    /** java.lang.NullPointerException, naming what was null */
    | NullPointer(what: string)
    /** java.util.NoSuchElementException */
    | NoSuchElement(text: string)
    /** kotlin.NotImplementedError, thrown by `TODO()` */
    | NotImplemented(text: string)
    /** java.lang.ClassCastException */
    | ClassCast(what: string)
    /** io.jsonwebtoken.RequiredTypeException: a claim is present with the wrong type */
    | RequiredType(claim: string)
    /** io.jsonwebtoken.JwtException: the token is malformed or its signature does not verify */
    | InvalidJwt
    /** java.time.temporal.UnsupportedTemporalTypeException */
    | UnsupportedTemporalType(text: string)
    /** java.lang.ArithmeticException, thrown by the exact `long` operations */
    | Arithmetic(text: string)
    /** java.time.DateTimeException: an `Instant` outside its supported range */
    | DateTime(text: string)
  {
    predicate IsCustom() {
      AccessDenied? || EntityNotFound? || PropertyNotFound? || Unprocessed? || UnprocessableEntity?
    }
  }

  type Try<T> = Result<T, Exception>

  /** `httpCode()` of the application exceptions; the others carry no status of their own. */
  function HttpCode(e: Exception): (r: Option<nat>)
    ensures r.Some? <==> e.IsCustom()
    ensures r.Some? ==> 400 <= r.value < 500
    ensures r == Some(401) <==> e.AccessDenied?
    ensures r == Some(404) <==> (e.EntityNotFound? || e.PropertyNotFound?)
    ensures r == Some(422) <==> (e.Unprocessed? || e.UnprocessableEntity?)
  {
    match e
    case AccessDenied(_, _) => Some(401)
    case EntityNotFound(_, _) => Some(404)
    case PropertyNotFound(_, _) => Some(404)
    case Unprocessed(_, _) => Some(422)
    case UnprocessableEntity(_, _) => Some(422)
    case _ => None
  }
}
