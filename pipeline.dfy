/** executeRequest: the order in which the handlers build a request, with
    the first exception ending the build: verb, path parameters, path
    substitution, query, createRequest, body, headers, authentication. The
    same order is written out in both handlers. */
module Pipeline {
  import opened Wrappers
  import opened Http
  import opened Errors
  import opened Json
  import opened Descriptor
  import opened PathTemplate
  import opened RequestBuilder
  import opened Tokens

  /** The request before authentication, once the URL is known: the query
      pairs, then the body, then the headers; the first failing step's
      exception wins. */
  function Prepared(verb: Verb, url: string, ep: Endpoint, args: seq<Arg>, serialize: Arg -> Option<string>): Result<WireRequest, Fault>
    requires |ep.params| == |args|
  {
    match QueryPairs(ep.params, args, |ep.params|)
    case Failure(f) => Failure(f)
    case Success(query) =>
      match RequestBody(verb, ep.params, args, serialize)
      case Failure(f) => Failure(f)
      case Success(body) =>
        var scan := ParamHeaders(ep.params, args, |ep.params|);
        if scan.failure.Some? then Failure(scan.failure.value)
        else Success(WireRequest(verb, url, query, ep.headers + scan.added, body))
  }

  /** The finished request: the prepared one, authenticated. */
  function Built(verb: Verb, url: string, ep: Endpoint, interfaceAuth: AuthAnnotations, args: seq<Arg>,
                 serialize: Arg -> Option<string>, fetch: OAuth2 -> Result<string, Fault>): Result<WireRequest, Fault>
    requires |ep.params| == |args|
  {
    match Prepared(verb, url, ep, args, serialize)
    case Failure(f) => Failure(f)
    case Success(w) => Authorize(w, AuthEffectOf(ResolveAuth(ep.auth, interfaceAuth), fetch))
  }

  /** The token manager is consulted only when the build gets as far as
      authentication and the scheme is OAuth2. */
  predicate AsksForToken(verb: Verb, url: string, ep: Endpoint, interfaceAuth: AuthAnnotations, args: seq<Arg>,
                         serialize: Arg -> Option<string>)
    requires |ep.params| == |args|
  {
    var plan := ResolveAuth(ep.auth, interfaceAuth);
    Prepared(verb, url, ep, args, serialize).Success? && plan.Apply? && plan.credentials.OAuth2Credentials?
  }

  /** executeRequest from the URL on: query, createRequest, body, headers,
      authentication. */
  method BuildRequest(info: MethodInfo, url: string, ep: Endpoint, iface: ApiInterface, args: seq<Arg>,
                      serialize: Arg -> Option<string>, tm: TokenManager, now: int,
                      endpoint: TokenRequest -> TokenReply, parse: string -> Option<Json>)
    returns (r: Result<WireRequest, Fault>)
    requires |ep.params| == |args|
    requires tm.Valid()
    modifies tm
    ensures tm.Valid()
    ensures var cache0 := old(tm.cache);
      var fetch := (c: OAuth2) => GetTokenSpec(cache0, c, now, endpoint, parse).result;
      r == Built(info.verb, url, ep, iface.auth, args, serialize, fetch)
    ensures AsksForToken(info.verb, url, ep, iface.auth, args, serialize) ==>
      tm.cache == GetTokenSpec(old(tm.cache), ResolveAuth(ep.auth, iface.auth).credentials.oauth2, now, endpoint, parse).cache
    ensures !AsksForToken(info.verb, url, ep, iface.auth, args, serialize) ==> tm.cache == old(tm.cache)
  {
    var query := ProcessQueryParams(ep.params, args);
    if query.Failure? {
      return Failure(query.error);
    }
    var req := CreateRequest(info, url, query.value);
    var body := ProcessRequestBody(req, ep.params, args, serialize);
    if body.Failure? {
      return Failure(body.error);
    }
    var headers := AddHeaders(req, ep.headers, ep.params, args);
    if headers.Failure? {
      return Failure(HeadersNotMap);
    }
    assert req.verb == info.verb && req.url == url && req.query == query.value;
    assert req.entity == RequestBody(info.verb, ep.params, args, serialize).value;
    assert req.headers == ep.headers + ParamHeaders(ep.params, args, |ep.params|).added;
    assert Prepared(info.verb, url, ep, args, serialize) == Success(req.Snapshot());
    var plan := ResolveAuth(ep.auth, iface.auth);
    var auth := ApplyAuthentication(req, plan, tm, now, endpoint, parse);
    if auth.Failure? {
      return Failure(auth.error);
    }
    return Success(req.Snapshot());
  }

  /** executeRequest, up to the point where the request is handed to the
      HTTP client. The path substitution follows the HashMap's iteration
      order, reported as `order`. */
  method ExecuteRequest(ep: Endpoint, iface: ApiInterface, baseUrl: string, args: seq<Arg>,
                        serialize: Arg -> Option<string>, tm: TokenManager, now: int,
                        endpoint: TokenRequest -> TokenReply, parse: string -> Option<Json>)
    returns (r: Result<WireRequest, Fault>, ghost order: seq<string>)
    requires |ep.params| == |args|
    requires tm.Valid()
    modifies tm
    ensures tm.Valid()
    ensures var info := GetHttpMethodInfo(ep.name, ep.verbs);
      info.Failure? ==> r == Failure(info.error) && tm.cache == old(tm.cache)
    ensures var info := GetHttpMethodInfo(ep.name, ep.verbs);
      var bindings := PathBindings(ep.params, args, |ep.params|);
      info.Success? && bindings.Failure? ==> r == Failure(bindings.error) && tm.cache == old(tm.cache)
    ensures var info := GetHttpMethodInfo(ep.name, ep.verbs);
      var bindings := PathBindings(ep.params, args, |ep.params|);
      var cache0 := old(tm.cache);
      var fetch := (c: OAuth2) => GetTokenSpec(cache0, c, now, endpoint, parse).result;
      info.Success? && bindings.Success? ==>
        && Enumerates(order, bindings.value.Keys)
        && var url := baseUrl + ReplaceInOrder(info.value.path, bindings.value, order);
           && r == Built(info.value.verb, url, ep, iface.auth, args, serialize, fetch)
           && (AsksForToken(info.value.verb, url, ep, iface.auth, args, serialize) ==>
                 tm.cache == GetTokenSpec(cache0, ResolveAuth(ep.auth, iface.auth).credentials.oauth2, now, endpoint, parse).cache)
           && (!AsksForToken(info.value.verb, url, ep, iface.auth, args, serialize) ==> tm.cache == cache0)
  {
    order := [];
    var info := GetHttpMethodInfo(ep.name, ep.verbs);
    if info.Failure? {
      return Failure(info.error), order;
    }
    var bindings := ExtractPathParams(ep.params, args);
    if bindings.Failure? {
      return Failure(bindings.error), order;
    }
    var path;
    path, order := ReplacePathParams(info.value.path, bindings.value);
    r := BuildRequest(info.value, baseUrl + path, ep, iface, args, serialize, tm, now, endpoint, parse);
  }

  /** The order of the steps shows in which exception wins: a null @Query
      argument beats a bad body, a bad body beats a bad @Headers argument,
      and authentication runs only on a request that got that far. */
  lemma BuildStepOrder(verb: Verb, url: string, ep: Endpoint, interfaceAuth: AuthAnnotations, args: seq<Arg>,
                       serialize: Arg -> Option<string>, fetch: OAuth2 -> Result<string, Fault>)
    requires |ep.params| == |args|
    ensures QueryPairs(ep.params, args, |ep.params|).Failure? ==>
      Built(verb, url, ep, interfaceAuth, args, serialize, fetch) == Failure(NullDereference)
    ensures QueryPairs(ep.params, args, |ep.params|).Success? && RequestBody(verb, ep.params, args, serialize).Failure? ==>
      Built(verb, url, ep, interfaceAuth, args, serialize, fetch) == Failure(RequestBody(verb, ep.params, args, serialize).error)
    ensures QueryPairs(ep.params, args, |ep.params|).Success? && RequestBody(verb, ep.params, args, serialize).Success?
            && ParamHeaders(ep.params, args, |ep.params|).failure.Some? ==>
      Built(verb, url, ep, interfaceAuth, args, serialize, fetch) == Failure(HeadersNotMap)
    ensures ResolveAuth(ep.auth, interfaceAuth).NoAuth? ==>
      Built(verb, url, ep, interfaceAuth, args, serialize, fetch) == Prepared(verb, url, ep, args, serialize)
  {
    if QueryPairs(ep.params, args, |ep.params|).Failure? {
      QueryPairsNullOnly(ep.params, args, |ep.params|);
    }
    PreparedFailures(verb, url, ep, args, serialize);
    BuiltFromPrepared(verb, url, ep, interfaceAuth, args, serialize, fetch);
  }

  /** The failures of the steps before authentication, in their order. */
  lemma PreparedFailures(verb: Verb, url: string, ep: Endpoint, args: seq<Arg>, serialize: Arg -> Option<string>)
    requires |ep.params| == |args|
    ensures QueryPairs(ep.params, args, |ep.params|).Failure? ==>
      Prepared(verb, url, ep, args, serialize) == Failure(QueryPairs(ep.params, args, |ep.params|).error)
    ensures QueryPairs(ep.params, args, |ep.params|).Success? && RequestBody(verb, ep.params, args, serialize).Failure? ==>
      Prepared(verb, url, ep, args, serialize) == Failure(RequestBody(verb, ep.params, args, serialize).error)
    ensures QueryPairs(ep.params, args, |ep.params|).Success? && RequestBody(verb, ep.params, args, serialize).Success?
            && ParamHeaders(ep.params, args, |ep.params|).failure.Some? ==>
      Prepared(verb, url, ep, args, serialize) == Failure(HeadersNotMap)
  {
  }

  /** A failed preparation is the build's failure; without authentication
      the build is the preparation. */
  lemma BuiltFromPrepared(verb: Verb, url: string, ep: Endpoint, interfaceAuth: AuthAnnotations, args: seq<Arg>,
                       serialize: Arg -> Option<string>, fetch: OAuth2 -> Result<string, Fault>)
    requires |ep.params| == |args|
    ensures Prepared(verb, url, ep, args, serialize).Failure? ==>
      Built(verb, url, ep, interfaceAuth, args, serialize, fetch) == Prepared(verb, url, ep, args, serialize)
    ensures ResolveAuth(ep.auth, interfaceAuth).NoAuth? ==>
      Built(verb, url, ep, interfaceAuth, args, serialize, fetch) == Prepared(verb, url, ep, args, serialize)
  {
  }

  /** The only exception the query step throws is the null dereference. */
  lemma {:induction false} QueryPairsNullOnly(params: seq<ParamRole>, args: seq<Arg>, n: nat)
    requires n <= |params| == |args|
    ensures QueryPairs(params, args, n).Failure? ==> QueryPairs(params, args, n).error == NullDereference
    decreases n
  {
    if n > 0 {
      QueryPairsNullOnly(params, args, n - 1);
    }
  }

  /** What a finished request holds: the chosen verb and the URL; the body
      processRequestBody chose; the @Header annotations first and then the
      @Headers entries, followed by at most one authentication entry in the
      headers or in the query, which starts with the @Query pairs in
      declaration order. */
  lemma BuiltShape(verb: Verb, url: string, ep: Endpoint, interfaceAuth: AuthAnnotations, args: seq<Arg>,
                   serialize: Arg -> Option<string>, fetch: OAuth2 -> Result<string, Fault>)
    requires |ep.params| == |args|
    requires Built(verb, url, ep, interfaceAuth, args, serialize, fetch).Success?
    ensures var w := Built(verb, url, ep, interfaceAuth, args, serialize, fetch).value;
      && w.verb == verb && w.url == url
      && RequestBody(verb, ep.params, args, serialize) == Success(w.body)
      && QueryPairs(ep.params, args, |ep.params|).Success?
      && QueryPairs(ep.params, args, |ep.params|).value <= w.query
      && ep.headers + ParamHeaders(ep.params, args, |ep.params|).added <= w.headers
      && ep.headers <= w.headers
      && |w.headers| + |w.query| <= |ep.headers| + |ParamHeaders(ep.params, args, |ep.params|).added|
                                    + |QueryPairs(ep.params, args, |ep.params|).value| + 1
  {
    var scan := ParamHeaders(ep.params, args, |ep.params|);
    var w := Built(verb, url, ep, interfaceAuth, args, serialize, fetch).value;
    assert ep.headers <= ep.headers + scan.added;
  }
}
