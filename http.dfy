/**
 * The parts of an HTTP request that the middleware and the exception renderers
 * look at: the decoded path (without its leading '/') and the header bag.
 */
module Http {
  import opened Wrappers
  import opened Text

  /**
   * `$request->is($prefix . '*')`: the path starts with the prefix.  Only
   * patterns made of a literal prefix and one trailing '*' occur in this model.
   */
  predicate Is(path: string, prefix: string)
    ensures Is(path, prefix) ==> |prefix| <= |path| && path[..|prefix|] == prefix
    ensures Is(path, prefix) && prefix != [] ==> path != []
  {
    prefix <= path
  }

  // The `api/*` and `broadcasting/*` route patterns, as prefixes.
  const ApiPrefix: string := "api/"
  const BroadcastingPrefix: string := "broadcasting/"

  /** No path lies under both prefixes. */
  lemma PrefixesDisjoint(path: string)
    ensures !(Is(path, ApiPrefix) && Is(path, BroadcastingPrefix))
  {
    if Is(path, ApiPrefix) {
      assert path[0] == 'a';
    }
  }

  /** A header map as Symfony's HeaderBag keeps it: normalised names, lists of values. */
  type Headers = map<string, seq<string>>

  /**
   * HeaderBag's name normalisation, `strtr($key, '_A..Z', '-a..z')`: '_' becomes '-'
   * and 'A'..'Z' become 'a'..'z'.
   */
  function HeaderName(key: string): (r: string)
    ensures |r| == |key|
    ensures forall i :: 0 <= i < |r| ==> r[i] != '_' && !('A' <= r[i] <= 'Z')
    ensures forall i :: 0 <= i < |key| && key[i] != '_' ==> r[i] == LowerChar(key[i])
  {
    seq(|key|, i requires 0 <= i < |key| => if key[i] == '_' then '-' else LowerChar(key[i]))
  }

  /** Normalising a normalised name changes nothing. */
  lemma HeaderNameIdempotent(key: string)
    ensures HeaderName(HeaderName(key)) == HeaderName(key)
  {
  }

  /** Symfony's HeaderBag: the header map, updated in place by `set`. */
  class HeaderBag {
    var headers: Headers

    /** Every stored name is already normalised. */
    ghost predicate Valid()
      reads this
    {
      forall k :: k in headers ==> HeaderName(k) == k
    }

    /**
     * A bag built from a map whose names are already normalised; Symfony's constructor,
     * which normalises arbitrary names through `set`, is not part of this model.
     */
    constructor (initial: Headers)
      requires forall k :: k in initial ==> HeaderName(k) == k
      ensures Valid() && headers == initial
    {
      headers := initial;
    }

    /** `get($key)`: the first value stored under the normalised name, or null. */
    function Get(key: string): (r: Option<string>)
      reads this
      ensures r.Some? <==> HeaderName(key) in headers && headers[HeaderName(key)] != []
      ensures r.Some? ==> r.value == headers[HeaderName(key)][0]
    {
      var k := HeaderName(key);
      if k in headers && headers[k] != [] then Some(headers[k][0]) else None
    }

    /** `set($key, $value)` with `$replace = true`: the normalised name now holds exactly [value]. */
    method Set(key: string, value: string)
      requires Valid()
      modifies this
      ensures Valid()
      ensures headers == old(headers)[HeaderName(key) := [value]]
    {
      HeaderNameIdempotent(key);
      headers := headers[HeaderName(key) := [value]];
    }
  }

  /** A request: a fixed path and the header bag the middleware may update. */
  class Request {
    const path: string
    const headers: HeaderBag

    constructor (path: string, headers: HeaderBag)
      ensures this.path == path && this.headers == headers
    {
      this.path := path;
      this.headers := headers;
    }
  }
}
