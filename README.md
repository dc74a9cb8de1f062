# Laravel API boilerplate: exception rendering, disposable-email rule, Accept-JSON middleware

This project models, in Dafny, the four self-contained pieces of logic of a Laravel
authentication API and proves what each promises:

- **Exception rendering** (`exception_rendering.dfy`, module `ExceptionRendering`): the
  eight `renderable` callbacks registered in `bootstrap/app.php`. Laravel tries them in
  registration order. A callback is tried only when the exception is an instance of the
  type of its first parameter. The first callback that returns a response wins. When none
  does, the framework renders the exception itself, shown as `None`. `Render` walks the
  registered list, and `FirstResponder` gives the position of the winning callback. The
  lemmas state the exact response for each kind of exception. They also prove that the
  specific HTTP callbacks shadow the generic one, and that nothing is answered off the
  `api/` prefix. On that prefix, only validation failures are left to the framework.
- **Exception values** (`exceptions.dfy`, module `Exceptions`): `BusinessRuleException` is
  an immutable record (message, field errors, code, previous exception). Its errors are
  written once, at construction. `Throwable` lists the framework exception classes the
  callbacks name. Subclassing is written out: `IsHttpException` holds for the base class
  and for its not-found, method-not-allowed and too-many-requests subclasses.
- **NotDisposableEmail** (`not_disposable_email.dfy`): the validation rule takes the text
  after the last `@` (PHP `strrchr` then `substr(…, 1)`), lower-cases it and looks it up in
  a fixed list of 44 throw-away providers. `Validate` returns the list of messages passed
  to `$fail`: one message for a listed provider, none otherwise.
- **EnsureAcceptJsonMiddleware** (`accept_json_middleware.dfy`, with the request and
  Symfony's `HeaderBag` in `http.dfy`): `Handle` updates the request's header bag in place.
  It then calls the `next` stage (class `Next`, which records each call) exactly once and
  returns that response. `ForwardedHeaders` is the pure specification of the headers
  `next` receives.

`text.dfy` holds PHP's `strtolower` (ASCII letters only, as in PHP 8.2 and later).
HeaderBag's name normalisation (`HeaderName`) also maps `_` to `-`. `wrappers.dfy` holds `Option`.

Modelling choices:
- `$request->is("api/*")` and `$request->is('broadcasting/*')` are modelled as prefix
  tests on the decoded request path (`Http.Is`). As Laravel's `path()` gives it, that path
  has its leading and trailing `/` trimmed, so a request to `/api/` has the path `api` and
  is not under `api/`. Treating the glob as a prefix test is an assumption about
  Laravel's matcher for these two patterns.
- `App::environment('local')` is the boolean parameter `local`.
- The `ApiResponse` helper is not part of this model. A response records which helper
  built it (`notFoundResponse`, `unauthorizedResponse`, `errorResponse`,
  `errorMessageResponse`), its message and field errors, and its status. A status not
  passed explicitly is `HelperDefault`, because the helpers' default statuses are not
  visible.
- The status codes of the Symfony subclasses (404, 405, 429) come from Symfony and are
  used only to show what the generic callback would have answered.

## Model

| member | source | states |
|---|---|---|
| Exceptions.NewBusinessRuleException | app/Exceptions/BusinessRuleException.php:15-24 | `getMessage`, `getErrors`, `getCode` and `getPrevious` return exactly what the constructor was given |
| Exceptions.BusinessRuleDefaults | app/Exceptions/BusinessRuleException.php:13-17 | omitted arguments mean no field errors, code 0 and no previous exception; the message is kept unchanged |
| ExceptionRendering.Accepts | bootstrap/app.php:40-113 | the `instanceof` test on each callback's parameter type: the catch-all admits everything, the generic HttpException callback admits every HttpException, validation and other throwables are admitted only by the catch-all, and a business-rule exception only by its own callback and the catch-all |
| ExceptionRendering.AdmittingPositions | bootstrap/app.php:40-113 | in the registered order of eight callbacks ending with the catch-all, the exact set of positions that admit each kind of exception, e.g. {0, 5, 7} for a missing route |
| ExceptionRendering.Render | bootstrap/app.php:34-135 | a response is produced only under `api/`, never for a ValidationException, carries field errors only for a business-rule exception with a non-empty map, and exists exactly when some callback responds |
| ExceptionRendering.Apply | bootstrap/app.php:40-134 | every callback returns null unless the path is under `api/`; only the business-rule callback attaches field errors |
| ExceptionRendering.FirstResponder | bootstrap/app.php:34-135 | the chosen callback responds, every earlier one declines or is not admitted, and no callback responds when none is chosen |
| ExceptionRendering.FirstResponderAt | bootstrap/app.php:34-135 | a responding callback that no earlier callback pre-empts is the one chosen |
| ExceptionRendering.RenderedBy | bootstrap/app.php:34-135 | when no earlier callback admits the exception, the callback at position i renders it |
| ExceptionRendering.NonApiFallsThrough | bootstrap/app.php:43-133 | off the `api/` prefix no callback answers and the framework renders the exception |
| ExceptionRendering.ApiTotality | bootstrap/app.php:113-134 | under `api/` every exception gets a response exactly when it is not a ValidationException |
| ExceptionRendering.NotFoundRendered | bootstrap/app.php:40-46 | a missing route gets the not-found helper, the fixed message and the helper's default status |
| ExceptionRendering.MethodNotAllowedRendered | bootstrap/app.php:49-55 | a wrong method gets 'Invalid API method.' with status 422 |
| ExceptionRendering.AuthenticationRendered | bootstrap/app.php:58-67 | an authentication failure gets the fixed login message and 401, whatever its own message |
| ExceptionRendering.AuthorizationRendered | bootstrap/app.php:70-76 | an authorization failure gets the fixed permission message and the helper's default status |
| ExceptionRendering.TooManyRequestsRendered | bootstrap/app.php:79-84 | rate limiting gets the fixed retry message and 429 |
| ExceptionRendering.HttpExceptionRendered | bootstrap/app.php:87-93 | any other HttpException gets its own message and its own status code |
| ExceptionRendering.SpecificHandlersShadowGeneric | bootstrap/app.php:40-93 | the generic HttpException callback admits and would answer the three subclasses, but the earlier specific callback always wins; for not-found and wrong-method the answers differ |
| ExceptionRendering.BusinessRuleRendered | bootstrap/app.php:96-110 | a business-rule violation gets its own message and 422, with the field errors attached exactly when the map is non-empty |
| ExceptionRendering.CatchAllDeclines | bootstrap/app.php:113-116 | the catch-all returns null for validation and business-rule exceptions |
| ExceptionRendering.UnexpectedRendered | bootstrap/app.php:113-134 | anything else gets the generic message; ' ' and the exception's message are appended only in the local environment |
| ExceptionRendering.ValidationLeftToFramework | bootstrap/app.php:113-116 | a ValidationException is never answered by these callbacks, on any path |
| Exceptions.Throwable.IsHttpException | bootstrap/app.php:87 | the three named subclasses are HttpExceptions; authentication, authorization, validation, business-rule and other throwables are not |
| Exceptions.Throwable.StatusCode | bootstrap/app.php:91 | a generic HttpException reports its own status code; the three subclasses report 404, 405 or 429, so a wrong method would never report 422 itself |
| Http.Is | app/Http/Middleware/EnsureAcceptJsonMiddleware.php:18-22 | a path matches a prefix pattern only when it is at least as long as the prefix and begins with it |
| Http.PrefixesDisjoint | app/Http/Middleware/EnsureAcceptJsonMiddleware.php:18-22 | no path is under both `broadcasting/` and `api/` |
| Http.HeaderName | app/Http/Middleware/EnsureAcceptJsonMiddleware.php:23 | a normalised header name has the same length, no `_` and no upper-case letter; every other character is lower-cased in place |
| Http.HeaderNameIdempotent | app/Http/Middleware/EnsureAcceptJsonMiddleware.php:23 | normalising a name twice gives the same name as once |
| Http.HeaderBag.Get | app/Http/Middleware/EnsureAcceptJsonMiddleware.php:23 | `get` returns the first value stored under the normalised name, and null when the name is absent or has no value |
| Http.HeaderBag.Set | app/Http/Middleware/EnsureAcceptJsonMiddleware.php:23 | `set` stores exactly [value] under the normalised name, leaves every other entry as it was and keeps names normalised |
| Text.ToLower | app/Rules/NotDisposableEmail.php:64 | `strtolower` keeps the length and leaves no upper-case letter in the result |
| NotDisposableEmail.LastIndexOf | app/Rules/NotDisposableEmail.php:64 | the index found holds the character and no later index does; no index is found only when the character is absent |
| NotDisposableEmail.Strrchr | app/Rules/NotDisposableEmail.php:64 | false exactly when there is no '@'; otherwise a suffix of the value that starts with '@' and has no later '@' |
| NotDisposableEmail.Domain | app/Rules/NotDisposableEmail.php:64 | the extracted domain is empty when the value has no '@', contains no '@' and has no upper-case letter |
| NotDisposableEmail.IsDisposable | app/Rules/NotDisposableEmail.php:66 | a rejected value contains '@' and has a non-empty domain |
| NotDisposableEmail.DomainAt | app/Rules/NotDisposableEmail.php:64 | the domain is the lower-cased text after the last '@' |
| NotDisposableEmail.DomainWithoutAt | app/Rules/NotDisposableEmail.php:64 | a value without '@' has the empty domain |
| NotDisposableEmail.DomainAfterLastAt | app/Rules/NotDisposableEmail.php:64 | for any local part (which may contain '@') followed by '@' and an '@'-free domain, the domain is the lower-cased domain |
| NotDisposableEmail.Validate | app/Rules/NotDisposableEmail.php:15-69 | `$fail` is called at most once, with the fixed message, and exactly when the domain is listed |
| NotDisposableEmail.BlocklistShape | app/Rules/NotDisposableEmail.php:17-62 | the list has 44 entries and the empty domain is not among them |
| NotDisposableEmail.NoAtNeverRejected | app/Rules/NotDisposableEmail.php:64-68 | a value without '@' is never rejected and `$fail` is not called |
| NotDisposableEmail.RejectedIff | app/Rules/NotDisposableEmail.php:64-66 | a value is rejected exactly when the lower-cased text after its last '@' is in the list |
| NotDisposableEmail.LocalPartIrrelevant | app/Rules/NotDisposableEmail.php:64-68 | two values with the same final domain get the same verdict |
| NotDisposableEmail.LastAtUnderToLower | app/Rules/NotDisposableEmail.php:64 | lower-casing leaves the position of the last '@' unchanged |
| NotDisposableEmail.DomainUnderToLower | app/Rules/NotDisposableEmail.php:64 | lower-casing the value first leaves its domain unchanged |
| NotDisposableEmail.CaseInsensitive | app/Rules/NotDisposableEmail.php:64-66 | a value and its lower-cased form have the same domain and the same verdict |
| NotDisposableEmail.LastAtDecides | app/Rules/NotDisposableEmail.php:64-66 | `a@b@mailinator.com` is rejected for any a and b: only the last '@' counts |
| NotDisposableEmail.UpperCaseRejected | app/Rules/NotDisposableEmail.php:64-66 | `…@MAILINATOR.COM` is rejected |
| NotDisposableEmail.SubdomainAccepted | app/Rules/NotDisposableEmail.php:66 | `…@sub.mailinator.com` is accepted: matching is exact, not by suffix |
| NotDisposableEmail.SubdomainNotListed | app/Rules/NotDisposableEmail.php:17-62 | `sub.mailinator.com` is not an entry of the list |
| AcceptJsonMiddleware.ForwardedHeaders | app/Http/Middleware/EnsureAcceptJsonMiddleware.php:18-24 | under `api/` the forwarded Accept header is exactly `application/json`; under `broadcasting/` and elsewhere the headers are unchanged; no header other than Accept is added, dropped or changed |
| AcceptJsonMiddleware.ForwardedHeadersIdempotent | app/Http/Middleware/EnsureAcceptJsonMiddleware.php:23 | passing the request through twice forwards the same headers as once |
| AcceptJsonMiddleware.AcceptKeyNormalised | app/Http/Middleware/EnsureAcceptJsonMiddleware.php:23 | the name `Accept` is stored as `accept` |
| AcceptJsonMiddleware.Next.Call | app/Http/Middleware/EnsureAcceptJsonMiddleware.php:26 | calling `next` records the request as it is at the call and returns the downstream response |
| AcceptJsonMiddleware.Handle | app/Http/Middleware/EnsureAcceptJsonMiddleware.php:16-27 | the header bag afterwards is `ForwardedHeaders` of the old one; `next` is called exactly once, with the updated request; its response is returned unchanged; under `api/` `get('Accept')` is `application/json` |
| AcceptJsonMiddleware.ApiClientGetsJson | app/Http/Middleware/EnsureAcceptJsonMiddleware.php:22-26 | an example: for any Accept value sent to `api/me` with an `x-trace` header, `next` sees `application/json` and the `x-trace` value unchanged (the all-inputs frame is `ForwardedHeaders`' contract) |

## Left out

- Logging (`Log::warning`, `Log::error` with the stack trace) in every callback: it has no observable effect on the response.
- The `ApiResponse` helper's envelope layout and its default statuses: that class is not part of this model, so a response records the helper called and `HelperDefault`.
- Framework preprocessing before the callbacks run, such as Laravel turning an authorization failure into an HTTP exception, and any `render` method an exception may carry: this is not visible in the repository, so the callbacks are modelled as registered.
- Exception kinds: only the classes the callbacks name are distinguished. Every other throwable is `OtherThrowable`, and every other HttpException subclass is `HttpException` with its status.
- Field-error maps are `map<string, seq<string>>`: PHP array order and nesting other than field → messages are not modelled.
- NotDisposableEmail.Validate: `$value` is modelled as a string. The coercion or TypeError PHP applies to other values is not modelled, and neither is the framework's later substitution of `:attribute` in the message.
- `strtolower` lower-cases ASCII letters only, as PHP 8.2 and later do.
- Http.HeaderBag.constructor: the bag is built from a map whose names are already normalised; Symfony's constructor, which normalises any names through `set`, is not modelled.
- Request paths are given already decoded and trimmed of leading and trailing `/`; URL decoding and the trimming done by Laravel's `path()` are not modelled.
- The content of the response produced downstream of the middleware: it is an opaque `Response` computed from what `next` sees.
- Routing and middleware-group configuration in bootstrap/app.php (lines 20-32), the auth service and controller, the user resource, routes and file uploads: these are framework glue over calls that are not part of this model.
