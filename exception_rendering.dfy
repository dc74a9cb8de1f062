/**
 * The `withExceptions` configuration of bootstrap/app.php: eight renderable
 * callbacks, tried in registration order.  A callback is tried only when the
 * exception is an instance of its parameter's type; the first one that returns a
 * response wins, and when none does the framework's own rendering takes over
 * (`None` here).  Logging is left out; the environment check `App::environment('local')`
 * is the parameter `local`.
 */
module ExceptionRendering {
  import opened Wrappers
  import opened Exceptions
  import opened Http

  /** The ApiResponse helper a callback calls; its body is not part of this model. */
  datatype Helper = NotFoundResponse | UnauthorizedResponse | ErrorResponse | ErrorMessageResponse

  /** A status passed explicitly, or the helper's own default (not visible here). */
  datatype Status = Explicit(code: int) | HelperDefault

  /** The response a callback builds: which helper, message, field errors and status. */
  datatype Envelope = Envelope(helper: Helper, message: string, errors: Option<ErrorBag>, status: Status)

  /** The eight callbacks, named after the type each one declares for its exception parameter. */
  datatype Handler =
    | NotFoundHandler
    | MethodNotAllowedHandler
    | AuthenticationHandler
    | AuthorizationHandler
    | TooManyRequestsHandler
    | HttpHandler
    | BusinessRuleHandler
    | CatchAllHandler

  /** Registration order. */
  const Handlers: seq<Handler> := [
    NotFoundHandler,
    MethodNotAllowedHandler,
    AuthenticationHandler,
    AuthorizationHandler,
    TooManyRequestsHandler,
    HttpHandler,
    BusinessRuleHandler,
    CatchAllHandler
  ]

  const NotFoundMessage: string := "The requested URL was not found."
  const InvalidMethodMessage: string := "Invalid API method."
  const AuthenticationMessage: string := "Authentication failed. Please login or create an account to continue"
  const AuthorizationMessage: string := "You do not have permission to access this resource."
  const TooManyRequestsMessage: string := "Too many attempts. Please try again in a while."
  const GenericMessage: string := "Something went wrong. Please try again later."

  predicate IsApi(path: string)
  {
    Is(path, ApiPrefix)
  }

  /** The callback's parameter type admits the exception (`instanceof`). */
  predicate Accepts(h: Handler, ex: Throwable)
    ensures h == CatchAllHandler ==> Accepts(h, ex)
    ensures h == HttpHandler && ex.IsHttpException() ==> Accepts(h, ex)
    ensures ex.ValidationException? || ex.OtherThrowable? ==> (Accepts(h, ex) <==> h == CatchAllHandler)
    ensures ex.BusinessRule? ==> (Accepts(h, ex) <==> h == BusinessRuleHandler || h == CatchAllHandler)
  {
    match h
    case NotFoundHandler => ex.NotFoundHttpException?
    case MethodNotAllowedHandler => ex.MethodNotAllowedHttpException?
    case AuthenticationHandler => ex.AuthenticationException?
    case AuthorizationHandler => ex.AuthorizationException?
    case TooManyRequestsHandler => ex.TooManyRequestsHttpException?
    case HttpHandler => ex.IsHttpException()
    case BusinessRuleHandler => ex.BusinessRule?
    case CatchAllHandler => true
  }

  /** The body of one callback: a response, or `None` for a callback that returns null. */
  function Apply(h: Handler, ex: Throwable, path: string, local: bool): (r: Option<Envelope>)
    requires Accepts(h, ex)
    ensures !IsApi(path) ==> r == None
    ensures r.Some? && r.value.errors.Some? ==> h == BusinessRuleHandler
  {
    match h
    case NotFoundHandler =>
      if IsApi(path) then Some(Envelope(NotFoundResponse, NotFoundMessage, None, HelperDefault)) else None
    case MethodNotAllowedHandler =>
      if IsApi(path) then Some(Envelope(UnauthorizedResponse, InvalidMethodMessage, None, Explicit(422))) else None
    case AuthenticationHandler =>
      if IsApi(path) then Some(Envelope(UnauthorizedResponse, AuthenticationMessage, None, Explicit(401))) else None
    case AuthorizationHandler =>
      if IsApi(path) then Some(Envelope(UnauthorizedResponse, AuthorizationMessage, None, HelperDefault)) else None
    case TooManyRequestsHandler =>
      if IsApi(path) then Some(Envelope(UnauthorizedResponse, TooManyRequestsMessage, None, Explicit(429))) else None
    case HttpHandler =>
      if IsApi(path) then Some(Envelope(UnauthorizedResponse, ex.Message(), None, Explicit(ex.StatusCode()))) else None
    case BusinessRuleHandler =>
      if !IsApi(path) then None
      else if |ex.exception.GetErrors()| > 0 then
        Some(Envelope(ErrorResponse, ex.Message(), Some(ex.exception.GetErrors()), Explicit(422)))
      else
        Some(Envelope(ErrorMessageResponse, ex.Message(), None, Explicit(422)))
    case CatchAllHandler =>
      if ex.ValidationException? || ex.BusinessRule? then None
      else if !IsApi(path) then None
      else if local then Some(Envelope(ErrorMessageResponse, GenericMessage + " " + ex.Message(), None, HelperDefault))
      else Some(Envelope(ErrorMessageResponse, GenericMessage, None, HelperDefault))
  }

  /** The callback is tried and returns a response. */
  predicate Responds(h: Handler, ex: Throwable, path: string, local: bool)
  {
    Accepts(h, ex) && Apply(h, ex, path, local).Some?
  }

  /** The position of the first callback in `hs` that responds, if any. */
  function FirstResponder(hs: seq<Handler>, ex: Throwable, path: string, local: bool): (r: Option<nat>)
    ensures r.Some? ==> r.value < |hs| && Responds(hs[r.value], ex, path, local)
    ensures r.Some? ==> forall j :: 0 <= j < r.value ==> !Responds(hs[j], ex, path, local)
    ensures r.None? ==> forall j :: 0 <= j < |hs| ==> !Responds(hs[j], ex, path, local)
  {
    if hs == [] then None
    else if Responds(hs[0], ex, path, local) then Some(0)
    else match FirstResponder(hs[1..], ex, path, local)
      case None => None
      case Some(i) => Some(i + 1)
  }

  /** The callback of the registered list that renders the exception, if any. */
  function Responder(ex: Throwable, path: string, local: bool): Option<Handler>
  {
    match FirstResponder(Handlers, ex, path, local)
    case None => None
    case Some(i) => Some(Handlers[i])
  }

  /** What the configured handler produces; `None` hands the exception to the framework. */
  function Render(ex: Throwable, path: string, local: bool): (r: Option<Envelope>)
    ensures r.Some? ==> IsApi(path)
    ensures ex.ValidationException? ==> r == None
    ensures r.Some? && r.value.errors.Some? ==> ex.BusinessRule? && |ex.exception.GetErrors()| > 0
    ensures r.Some? <==> Responder(ex, path, local).Some?
  {
    match FirstResponder(Handlers, ex, path, local)
    case None => None
    case Some(i) => Apply(Handlers[i], ex, path, local)
  }

  /**
   * The positions of the registered list whose callback admits each kind of exception:
   * a named HttpException subclass is admitted by its own callback, by the generic
   * HttpException callback after it and by the catch-all.
   */
  lemma AdmittingPositions(ex: Throwable)
    ensures |Handlers| == 8 && Handlers[|Handlers| - 1] == CatchAllHandler
    ensures var admitting := set j | 0 <= j < |Handlers| && Accepts(Handlers[j], ex);
      && (ex.NotFoundHttpException? ==> admitting == {0, 5, 7})
      && (ex.MethodNotAllowedHttpException? ==> admitting == {1, 5, 7})
      && (ex.AuthenticationException? ==> admitting == {2, 7})
      && (ex.AuthorizationException? ==> admitting == {3, 7})
      && (ex.TooManyRequestsHttpException? ==> admitting == {4, 5, 7})
      && (ex.HttpException? ==> admitting == {5, 7})
      && (ex.BusinessRule? ==> admitting == {6, 7})
      && (ex.ValidationException? || ex.OtherThrowable? ==> admitting == {7})
  {
    var admitting := set j | 0 <= j < |Handlers| && Accepts(Handlers[j], ex);
    var expected :=
      match ex
      case NotFoundHttpException(_) => {0, 5, 7}
      case MethodNotAllowedHttpException(_) => {1, 5, 7}
      case AuthenticationException(_) => {2, 7}
      case AuthorizationException(_) => {3, 7}
      case TooManyRequestsHttpException(_) => {4, 5, 7}
      case HttpException(_, _) => {5, 7}
      case BusinessRule(_) => {6, 7}
      case _ => {7};
    forall j | 0 <= j < |Handlers|
      ensures j in admitting <==> j in expected
    {
    }
    assert admitting == expected;
  }

  /** The first responder is the one responding callback that no earlier callback pre-empts. */
  lemma FirstResponderAt(hs: seq<Handler>, i: nat, ex: Throwable, path: string, local: bool)
    requires i < |hs| && Responds(hs[i], ex, path, local)
    requires forall j :: 0 <= j < i ==> !Responds(hs[j], ex, path, local)
    ensures FirstResponder(hs, ex, path, local) == Some(i)
  {
  }

  /** Rendering by the callback at position i of the registered list. */
  lemma RenderedBy(i: nat, ex: Throwable, path: string, local: bool)
    requires i < |Handlers| && Responds(Handlers[i], ex, path, local)
    requires forall j :: 0 <= j < i ==> !Accepts(Handlers[j], ex)
    ensures Responder(ex, path, local) == Some(Handlers[i])
    ensures Render(ex, path, local) == Apply(Handlers[i], ex, path, local)
  {
    FirstResponderAt(Handlers, i, ex, path, local);
  }

  /** Off the `api/` prefix every callback returns null, so the framework renders. */
  lemma NonApiFallsThrough(ex: Throwable, path: string, local: bool)
    requires !IsApi(path)
    ensures Render(ex, path, local) == None
    ensures Responder(ex, path, local) == None
  {
  }

  /** On a path under `api/` only a ValidationException is left to the framework. */
  lemma ApiTotality(ex: Throwable, path: string, local: bool)
    requires IsApi(path)
    ensures Render(ex, path, local).Some? <==> !ex.ValidationException?
  {
    if ex.BusinessRule? {
      assert Responds(Handlers[6], ex, path, local);
    } else if !ex.ValidationException? {
      assert Responds(Handlers[7], ex, path, local);
    }
  }

  /** A missing route gets the not-found helper's response with its fixed message. */
  lemma NotFoundRendered(message: string, path: string, local: bool)
    requires IsApi(path)
    ensures Responder(NotFoundHttpException(message), path, local) == Some(NotFoundHandler)
    ensures Render(NotFoundHttpException(message), path, local) ==
      Some(Envelope(NotFoundResponse, "The requested URL was not found.", None, HelperDefault))
  {
    RenderedBy(0, NotFoundHttpException(message), path, local);
  }

  /** A wrong HTTP method gets 'Invalid API method.' with status 422, not its own 405. */
  lemma MethodNotAllowedRendered(message: string, path: string, local: bool)
    requires IsApi(path)
    ensures Responder(MethodNotAllowedHttpException(message), path, local) == Some(MethodNotAllowedHandler)
    ensures Render(MethodNotAllowedHttpException(message), path, local) ==
      Some(Envelope(UnauthorizedResponse, "Invalid API method.", None, Explicit(422)))
  {
    RenderedBy(1, MethodNotAllowedHttpException(message), path, local);
  }

  /** An authentication failure gets a fixed message and 401, whatever its own message says. */
  lemma AuthenticationRendered(message: string, path: string, local: bool)
    requires IsApi(path)
    ensures Responder(AuthenticationException(message), path, local) == Some(AuthenticationHandler)
    ensures Render(AuthenticationException(message), path, local) ==
      Some(Envelope(UnauthorizedResponse,
        "Authentication failed. Please login or create an account to continue", None, Explicit(401)))
  {
    RenderedBy(2, AuthenticationException(message), path, local);
  }

  /** An authorization failure gets a fixed message and the helper's default status. */
  lemma AuthorizationRendered(message: string, path: string, local: bool)
    requires IsApi(path)
    ensures Responder(AuthorizationException(message), path, local) == Some(AuthorizationHandler)
    ensures Render(AuthorizationException(message), path, local) ==
      Some(Envelope(UnauthorizedResponse,
        "You do not have permission to access this resource.", None, HelperDefault))
  {
    RenderedBy(3, AuthorizationException(message), path, local);
  }

  /** Rate limiting gets a fixed message and 429. */
  lemma TooManyRequestsRendered(message: string, path: string, local: bool)
    requires IsApi(path)
    ensures Responder(TooManyRequestsHttpException(message), path, local) == Some(TooManyRequestsHandler)
    ensures Render(TooManyRequestsHttpException(message), path, local) ==
      Some(Envelope(UnauthorizedResponse, "Too many attempts. Please try again in a while.", None, Explicit(429)))
  {
    RenderedBy(4, TooManyRequestsHttpException(message), path, local);
  }

  /** Any other HTTP exception is rendered with its own message and its own status code. */
  lemma HttpExceptionRendered(message: string, statusCode: int, path: string, local: bool)
    requires IsApi(path)
    ensures Responder(HttpException(message, statusCode), path, local) == Some(HttpHandler)
    ensures Render(HttpException(message, statusCode), path, local) ==
      Some(Envelope(UnauthorizedResponse, message, None, Explicit(statusCode)))
  {
    RenderedBy(5, HttpException(message, statusCode), path, local);
  }

  /**
   * The three named HttpException subclasses are admitted by the generic callback, which
   * would answer them too, yet the earlier specific callback always wins: for a missing
   * route and a wrong method the answer differs from what the generic callback gives.
   */
  lemma SpecificHandlersShadowGeneric(ex: Throwable, path: string, local: bool)
    requires IsApi(path)
    requires ex.NotFoundHttpException? || ex.MethodNotAllowedHttpException? || ex.TooManyRequestsHttpException?
    ensures Responds(HttpHandler, ex, path, local)
    ensures Responder(ex, path, local).Some? && Responder(ex, path, local) != Some(HttpHandler)
    ensures !ex.TooManyRequestsHttpException? ==> Render(ex, path, local) != Apply(HttpHandler, ex, path, local)
  {
    if ex.NotFoundHttpException? {
      NotFoundRendered(ex.message, path, local);
    } else if ex.MethodNotAllowedHttpException? {
      MethodNotAllowedRendered(ex.message, path, local);
    } else {
      TooManyRequestsRendered(ex.message, path, local);
    }
  }

  /**
   * A business-rule violation gets status 422 and its own message; the field errors are
   * attached exactly when the map is non-empty.
   */
  lemma BusinessRuleRendered(e: BusinessRuleException, path: string, local: bool)
    requires IsApi(path)
    ensures Responder(BusinessRule(e), path, local) == Some(BusinessRuleHandler)
    ensures |e.GetErrors()| > 0 ==>
      Render(BusinessRule(e), path, local) ==
        Some(Envelope(ErrorResponse, e.GetMessage(), Some(e.GetErrors()), Explicit(422)))
    ensures e.GetErrors() == map[] ==>
      Render(BusinessRule(e), path, local) ==
        Some(Envelope(ErrorMessageResponse, e.GetMessage(), None, Explicit(422)))
  {
    RenderedBy(6, BusinessRule(e), path, local);
  }

  /** The catch-all callback returns null for validation and business-rule exceptions. */
  lemma CatchAllDeclines(ex: Throwable, path: string, local: bool)
    requires ex.ValidationException? || ex.BusinessRule?
    ensures Apply(CatchAllHandler, ex, path, local) == None
  {
  }

  /**
   * Anything else falls to the catch-all: the generic message, followed by a space and the
   * exception's own message only in the local environment.
   */
  lemma UnexpectedRendered(message: string, path: string, local: bool)
    requires IsApi(path)
    ensures Responder(OtherThrowable(message), path, local) == Some(CatchAllHandler)
    ensures local ==>
      Render(OtherThrowable(message), path, local) ==
        Some(Envelope(ErrorMessageResponse, "Something went wrong. Please try again later. " + message,
          None, HelperDefault))
    ensures !local ==>
      Render(OtherThrowable(message), path, local) ==
        Some(Envelope(ErrorMessageResponse, "Something went wrong. Please try again later.", None, HelperDefault))
  {
    RenderedBy(7, OtherThrowable(message), path, local);
    assert GenericMessage + " " + message == "Something went wrong. Please try again later. " + message;
  }

  /** Validation failures are never answered here: the framework renders them. */
  lemma ValidationLeftToFramework(message: string, errors: ErrorBag, path: string, local: bool)
    ensures Render(ValidationException(message, errors), path, local) == None
  {
    var ex := ValidationException(message, errors);
    assert forall j :: 0 <= j < |Handlers| ==> !Responds(Handlers[j], ex, path, local);
  }
}
