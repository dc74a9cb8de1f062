/**
 * The exceptions the application's renderers branch on: the application's own
 * BusinessRuleException and the framework exception classes that bootstrap/app.php
 * registers handlers for.  Class inheritance is written out as predicates, so that
 * a handler's type hint can be tested with `instanceof` semantics.
 */
module Exceptions {
  import opened Wrappers

  /** A field-error map, as carried by validation and business-rule failures. */
  type ErrorBag = map<string, seq<string>>

  /**
   * The application's business-rule exception: message, field errors, code and the
   * previous exception.  It is immutable once built: no method writes `errors` after
   * construction, so a datatype value models it exactly.
   */
  datatype BusinessRuleException = BusinessRuleException(
    message: string,
    errors: ErrorBag,
    code: int,
    previous: Option<Throwable>)
  {
    function GetMessage(): string { message }
    function GetErrors(): ErrorBag { errors }
    function GetCode(): int { code }
    function GetPrevious(): Option<Throwable> { previous }
  }

  /**
   * `new BusinessRuleException($message, $errors = [], $code = 0, $previous = null)`:
   * the message, code and previous exception go to the parent constructor unchanged
   * and the errors are stored as given.
   */
  function NewBusinessRuleException(
    message: string,
    errors: ErrorBag := map[],
    code: int := 0,
    previous: Option<Throwable> := None): (e: BusinessRuleException)
    ensures e.GetMessage() == message
    ensures e.GetErrors() == errors
    ensures e.GetCode() == code
    ensures e.GetPrevious() == previous
  {
    BusinessRuleException(message, errors, code, previous)
  }

  /** Omitted constructor arguments give no errors, code 0 and no previous exception. */
  lemma BusinessRuleDefaults(message: string)
    ensures NewBusinessRuleException(message).GetErrors() == map[]
    ensures NewBusinessRuleException(message).GetCode() == 0
    ensures NewBusinessRuleException(message).GetPrevious() == None
    ensures NewBusinessRuleException(message).GetMessage() == message
  {
  }

  /**
   * The throwables the renderers can see.  The three Symfony subclasses of
   * HttpException are separate constructors; `HttpException` stands for the base
   * class and every other subclass of it, with its own status code.
   */
  datatype Throwable =
    | NotFoundHttpException(message: string)
    | MethodNotAllowedHttpException(message: string)
    | TooManyRequestsHttpException(message: string)
    | HttpException(message: string, statusCode: int)
    | AuthenticationException(message: string)
    | AuthorizationException(message: string)
    | ValidationException(message: string, errors: ErrorBag)
    | BusinessRule(exception: BusinessRuleException)
    | OtherThrowable(message: string)
  {
    /** `$ex instanceof HttpException`: the base class and its three named subclasses. */
    predicate IsHttpException()
      ensures NotFoundHttpException? || MethodNotAllowedHttpException? || TooManyRequestsHttpException? ==>
        IsHttpException()
      ensures IsHttpException() ==>
        !AuthenticationException? && !AuthorizationException? && !ValidationException? &&
        !BusinessRule? && !OtherThrowable?
    {
      NotFoundHttpException? || MethodNotAllowedHttpException? ||
      TooManyRequestsHttpException? || HttpException?
    }

    /** `getMessage()`. */
    function Message(): string
    {
      match this
      case BusinessRule(e) => e.GetMessage()
      case _ => this.message
    }

    /** `HttpException::getStatusCode()`: the subclasses fix 404, 405 and 429. */
    function StatusCode(): (status: int)
      requires IsHttpException()
      ensures HttpException? ==> status == statusCode
      ensures !HttpException? ==> status == 404 || status == 405 || status == 429
      ensures MethodNotAllowedHttpException? ==> status != 422
    {
      match this
      case NotFoundHttpException(_) => 404
      case MethodNotAllowedHttpException(_) => 405
      case TooManyRequestsHttpException(_) => 429
      case HttpException(_, status) => status
    }
  }
}
