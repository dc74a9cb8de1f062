/**
 * EnsureAcceptJsonMiddleware: requests under the `broadcasting/` prefix pass untouched;
 * requests under the `api/` prefix get their Accept header overwritten with
 * `application/json`; then the next stage of the pipeline is called once and its
 * response is returned as it is.
 */
module AcceptJsonMiddleware {
  import opened Wrappers
  import opened Text
  import opened Http

  /** The header name as HeaderBag stores it, and the value forced on API requests. */
  const AcceptKey: string := "accept"
  const JsonMediaType: string := "application/json"

  /** What the next stage sees of a request. */
  datatype RequestView = RequestView(path: string, headers: Headers)

  /** A response produced further down the pipeline; its content is not modelled. */
  datatype Response = Response(status: int, body: string)

  /** The headers the next stage receives, given the path and the incoming headers. */
  function ForwardedHeaders(path: string, headers: Headers): (r: Headers)
    ensures Is(path, BroadcastingPrefix) ==> r == headers
    ensures !Is(path, ApiPrefix) ==> r == headers
    ensures Is(path, ApiPrefix) ==> AcceptKey in r && r[AcceptKey] == [JsonMediaType]
    ensures r.Keys == headers.Keys || r.Keys == headers.Keys + {AcceptKey}
    ensures forall k :: k != AcceptKey ==> (k in r <==> k in headers)
    ensures forall k :: k != AcceptKey && k in headers ==> r[k] == headers[k]
  {
    PrefixesDisjoint(path);
    if Is(path, BroadcastingPrefix) then headers
    else if Is(path, ApiPrefix) then headers[AcceptKey := [JsonMediaType]]
    else headers
  }

  /** Passing a request through the middleware twice forwards the same headers as once. */
  lemma ForwardedHeadersIdempotent(path: string, headers: Headers)
    ensures ForwardedHeaders(path, ForwardedHeaders(path, headers)) == ForwardedHeaders(path, headers)
  {
  }

  /** `Accept` normalises to the stored name `accept`. */
  lemma AcceptKeyNormalised()
    ensures HeaderName("Accept") == AcceptKey
  {
  }

  /** The `$next` closure: records every request it is called with and answers by `respond`. */
  class Next {
    var received: seq<RequestView>
    const respond: RequestView -> Response

    constructor (respond: RequestView -> Response)
      ensures received == [] && this.respond == respond
    {
      received := [];
      this.respond := respond;
    }

    method Call(request: Request) returns (response: Response)
      modifies this
      ensures received == old(received) + [RequestView(request.path, request.headers.headers)]
      ensures response == respond(RequestView(request.path, request.headers.headers))
    {
      var view := RequestView(request.path, request.headers.headers);
      received := received + [view];
      response := respond(view);
    }
  }

  /**
   * `handle`: updates the request's header bag in place, calls `next` exactly once with
   * the updated request and returns that call's response.
   */
  method Handle(request: Request, next: Next) returns (response: Response)
    requires request.headers.Valid()
    modifies request.headers, next
    ensures request.headers.Valid()
    ensures request.headers.headers == ForwardedHeaders(request.path, old(request.headers.headers))
    ensures next.received == old(next.received) + [RequestView(request.path, request.headers.headers)]
    ensures response == next.respond(RequestView(request.path, request.headers.headers))
    ensures Is(request.path, ApiPrefix) ==> request.headers.Get("Accept") == Some(JsonMediaType)
  {
    if Is(request.path, BroadcastingPrefix) {
      PrefixesDisjoint(request.path);
      response := next.Call(request);
      return;
    }
    if Is(request.path, ApiPrefix) {
      AcceptKeyNormalised();
      request.headers.Set("Accept", JsonMediaType);
    }
    response := next.Call(request);
  }

  /** A client of the middleware: whatever Accept header an API client sends, JSON is forwarded. */
  method ApiClientGetsJson(sent: string, next: Next) returns (response: Response)
    modifies next
    ensures |next.received| == |old(next.received)| + 1
    ensures var seen := next.received[|next.received| - 1].headers;
      AcceptKey in seen && seen[AcceptKey] == [JsonMediaType] && "x-trace" in seen && seen["x-trace"] == ["abc"]
  {
    var bag := new HeaderBag(map[AcceptKey := [sent], "x-trace" := ["abc"]]);
    var request := new Request("api/me", bag);
    response := Handle(request, next);
  }
}
