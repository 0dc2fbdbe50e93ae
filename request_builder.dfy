/** The steps executeRequest applies to a request under construction: query
    parameters, createRequest, the JSON body, the headers and the
    authentication. The Apache request object is a class whose fields the
    steps update in place. */
module RequestBuilder {
  import opened Wrappers
  import opened Http
  import opened Errors
  import opened Json
  import opened Descriptor
  import opened Tokens
  import Base64

  // ---------------------------------------------------- query parameters

  /** The query pairs processQueryParams adds for the first `n` parameters:
      one (name, argument text) pair per @Query parameter, in declaration
      order; a null argument throws NullPointerException. */
  function QueryPairs(params: seq<ParamRole>, args: seq<Arg>, n: nat): Result<seq<Pair>, Fault>
    requires n <= |params| == |args|
    decreases n
  {
    if n == 0 then Success([])
    else match QueryPairs(params, args, n - 1)
      case Failure(f) => Failure(f)
      case Success(q) =>
        if !params[n - 1].QueryParam? then Success(q)
        else match ArgText(args[n - 1])
          case None => Failure(NullDereference)
          case Some(t) => Success(q + [(params[n - 1].name, t)])
  }

  /** The query holds exactly the @Query arguments: the pairs fail exactly
      when one of them is null; otherwise every @Query parameter contributes
      its pair and every pair comes from a @Query parameter. */
  lemma {:induction false} QueryPairsMeaning(params: seq<ParamRole>, args: seq<Arg>, n: nat)
    requires n <= |params| == |args|
    ensures QueryPairs(params, args, n).Success? <==>
      forall i :: 0 <= i < n && params[i].QueryParam? ==> !args[i].NullArg?
    ensures QueryPairs(params, args, n).Success? ==>
      forall i :: 0 <= i < n && params[i].QueryParam? ==>
        (params[i].name, ArgText(args[i]).value) in QueryPairs(params, args, n).value
    ensures QueryPairs(params, args, n).Success? ==>
      forall p :: p in QueryPairs(params, args, n).value ==>
        exists i :: 0 <= i < n && params[i] == QueryParam(p.0) && ArgText(args[i]) == Some(p.1)
    decreases n
  {
    if n > 0 {
      QueryPairsMeaning(params, args, n - 1);
      var r := QueryPairs(params, args, n - 1);
      if r.Success? && params[n - 1].QueryParam? && !args[n - 1].NullArg? {
        var q := QueryPairs(params, args, n).value;
        forall p | p in q
          ensures exists i :: 0 <= i < n && params[i] == QueryParam(p.0) && ArgText(args[i]) == Some(p.1)
        {
          if p !in r.value {
            assert params[n - 1] == QueryParam(p.0);
          }
        }
      }
    }
  }

  /** The query only grows by appending, in declaration order: the pairs of
      the first `m` parameters are a prefix of those of the first `n`. */
  lemma {:induction false} QueryPairsGrowByAppending(params: seq<ParamRole>, args: seq<Arg>, m: nat, n: nat)
    requires m <= n <= |params| == |args|
    requires QueryPairs(params, args, n).Success?
    ensures QueryPairs(params, args, m).Success?
    ensures QueryPairs(params, args, m).value <= QueryPairs(params, args, n).value
    decreases n
  {
    if m < n {
      QueryPairsGrowByAppending(params, args, m, n - 1);
    }
  }

  lemma {:induction false} QueryFailurePersists(params: seq<ParamRole>, args: seq<Arg>, k: nat, n: nat)
    requires k <= n <= |params| == |args|
    requires QueryPairs(params, args, k) == Failure(NullDereference)
    ensures QueryPairs(params, args, n) == Failure(NullDereference)
    decreases n
  {
    if n > k {
      QueryFailurePersists(params, args, k, n - 1);
    }
  }

  /** processQueryParams: one URIBuilder.addParameter per @Query parameter. */
  method ProcessQueryParams(params: seq<ParamRole>, args: seq<Arg>) returns (r: Result<seq<Pair>, Fault>)
    requires |params| == |args|
    ensures r == QueryPairs(params, args, |params|)
  {
    var query: seq<Pair> := [];
    var i := 0;
    while i < |params|
      invariant 0 <= i <= |params|
      invariant QueryPairs(params, args, i) == Success(query)
    {
      if params[i].QueryParam? {
        var text := ArgText(args[i]);
        if text.None? {
          QueryFailurePersists(params, args, i + 1, |params|);
          return Failure(NullDereference);
        }
        query := query + [(params[i].name, text.value)];
      }
      i := i + 1;
    }
    return Success(query);
  }

  // ------------------------------------------------------- the request

  /** The HttpUriRequest being built: its verb is fixed by its class, the
      rest is updated by the steps. */
  class HttpRequest {
    const verb: Verb
    var url: string
    var query: seq<Pair>
    var headers: seq<Pair>
    var entity: Option<RequestEntity>

    /** new HttpGet/HttpPost/...(uriBuilder.build()). */
    constructor(verb: Verb, url: string, query: seq<Pair>)
      ensures this.verb == verb && this.url == url && this.query == query
      ensures headers == [] && entity == None
    {
      this.verb := verb;
      this.url := url;
      this.query := query;
      headers := [];
      entity := None;
    }

    /** The request as it would go on the wire. */
    function Snapshot(): WireRequest
      reads this
    {
      WireRequest(verb, url, query, headers, entity)
    }

    /** addHeader: appends, never replaces. */
    method AddHeader(name: string, value: string)
      modifies this
      ensures headers == old(headers) + [(name, value)]
      ensures url == old(url) && query == old(query) && entity == old(entity)
    {
      headers := headers + [(name, value)];
    }

    /** setEntity, available on POST and PUT requests only. */
    method SetEntity(e: RequestEntity)
      requires EnclosesEntity(verb)
      modifies this
      ensures entity == Some(e)
      ensures url == old(url) && query == old(query) && headers == old(headers)
    {
      entity := Some(e);
    }

    /** setURI(new URIBuilder(getURI()).addParameter(name, value).build()):
        the pair goes after the query already built. */
    method AddQueryParameter(name: string, value: string)
      modifies this
      ensures query == old(query) + [(name, value)]
      ensures url == old(url) && headers == old(headers) && entity == old(entity)
    {
      query := query + [(name, value)];
    }
  }

  /** createRequest: the request class of the chosen verb, on the built URI. */
  method CreateRequest(info: MethodInfo, url: string, query: seq<Pair>) returns (req: HttpRequest)
    ensures fresh(req)
    ensures req.Snapshot() == WireRequest(info.verb, url, query, [], None)
  {
    req := new HttpRequest(info.verb, url, query);
  }

  // ------------------------------------------------------------ the body

  /** What StringEntity throws for a null text. */
  const NullSource := Fault(IllegalArgumentException, Some("Source string may not be null"))
  /** What JsonUtils.toJson throws when Jackson cannot serialize. */
  const SerializationFailed := Fault(FrameworkException, Some("JSON serialization failed"))

  /** The first @Body parameter. */
  function FirstBody(params: seq<ParamRole>): (r: Option<nat>)
    ensures r.Some? ==> r.value < |params| && params[r.value] == BodyParam
    ensures r.Some? ==> forall i :: 0 <= i < r.value ==> params[i] != BodyParam
    ensures r.None? <==> forall i :: 0 <= i < |params| ==> params[i] != BodyParam
  {
    if params == [] then None
    else if params[0] == BodyParam then Some(0)
    else match FirstBody(params[1..])
      case None => None
      case Some(i) => Some(i + 1)
  }

  /** new StringEntity(JsonUtils.toJson(arg), APPLICATION_JSON). toJson
      gives null for a null argument, which StringEntity refuses; a failed
      serialization is wrapped in FrameworkException. `serialize` stands for
      Jackson's writeValueAsString, None when it throws. */
  function BodyEntity(a: Arg, serialize: Arg -> Option<string>): (r: Result<RequestEntity, Fault>)
    ensures a.NullArg? ==> r == Failure(NullSource)
    ensures !a.NullArg? && serialize(a).None? ==> r == Failure(SerializationFailed)
    ensures r.Success? <==> !a.NullArg? && serialize(a).Some?
    ensures r.Success? ==> r.value == RequestEntity(serialize(a).value, ApplicationJson)
  {
    if a.NullArg? then Failure(NullSource)
    else match serialize(a)
      case None => Failure(SerializationFailed)
      case Some(json) => Success(RequestEntity(json, ApplicationJson))
  }

  /** What processRequestBody attaches: nothing unless the request is a POST
      or PUT with a @Body parameter; then the first one's JSON. */
  function RequestBody(verb: Verb, params: seq<ParamRole>, args: seq<Arg>, serialize: Arg -> Option<string>): Result<Option<RequestEntity>, Fault>
    requires |params| == |args|
  {
    if !EnclosesEntity(verb) then Success(None)
    else match FirstBody(params)
      case None => Success(None)
      case Some(i) =>
        match BodyEntity(args[i], serialize)
        case Failure(f) => Failure(f)
        case Success(e) => Success(Some(e))
  }

  /** A body goes only on POST and PUT, only from the first @Body argument,
      always as application/json: the arguments after the first @Body one
      are never looked at. */
  lemma RequestBodyOnlyFromFirst(verb: Verb, params: seq<ParamRole>, args: seq<Arg>, args2: seq<Arg>, serialize: Arg -> Option<string>)
    requires |params| == |args| == |args2|
    requires FirstBody(params).Some? ==> args2[FirstBody(params).value] == args[FirstBody(params).value]
    ensures RequestBody(verb, params, args, serialize) == RequestBody(verb, params, args2, serialize)
    ensures !EnclosesEntity(verb) ==> RequestBody(verb, params, args, serialize) == Success(None)
    ensures RequestBody(verb, params, args, serialize).Success? && RequestBody(verb, params, args, serialize).value.Some? ==>
      && EnclosesEntity(verb) && FirstBody(params).Some?
      && RequestBody(verb, params, args, serialize).value.value.contentType == ApplicationJson
      && serialize(args[FirstBody(params).value]) == Some(RequestBody(verb, params, args, serialize).value.value.text)
  {
  }

  /** processRequestBody: scans the parameters for the first @Body and
      attaches it, stopping there. */
  method ProcessRequestBody(req: HttpRequest, params: seq<ParamRole>, args: seq<Arg>, serialize: Arg -> Option<string>)
    returns (r: Result<(), Fault>)
    requires |params| == |args|
    modifies req
    ensures req.url == old(req.url) && req.query == old(req.query) && req.headers == old(req.headers)
    ensures var spec := RequestBody(req.verb, params, args, serialize);
      && (spec.Failure? ==> r == Failure(spec.error) && req.entity == old(req.entity))
      && (spec.Success? ==> r == Success(()) && req.entity == (if spec.value.Some? then spec.value else old(req.entity)))
  {
    if EnclosesEntity(req.verb) {
      var i := 0;
      while i < |params|
        invariant 0 <= i <= |params|
        invariant forall j :: 0 <= j < i ==> params[j] != BodyParam
        invariant req.url == old(req.url) && req.query == old(req.query) && req.headers == old(req.headers)
        invariant req.entity == old(req.entity)
      {
        if params[i] == BodyParam {
          assert FirstBody(params) == Some(i);
          var e := BodyEntity(args[i], serialize);
          if e.Failure? {
            return Failure(e.error);
          }
          req.SetEntity(e.value);
          break;
        }
        i := i + 1;
      }
    }
    return Success(());
  }

  // --------------------------------------------------------- the headers

  const HeadersNotMap := Fault(FrameworkException, Some("@Headers parameter must be a Map<String, String>"))

  /** addHeadersFromMap: the entries whose key and value are both non-null,
      in the map's iteration order. */
  function MapHeaders(entries: seq<(Option<string>, Option<string>)>): (r: seq<Pair>)
    ensures |r| <= |entries|
    ensures forall h :: h in r <==> (Some(h.0), Some(h.1)) in entries
    decreases |entries|
  {
    if entries == [] then []
    else
      var init := entries[..|entries| - 1];
      var e := entries[|entries| - 1];
      assert entries == init + [e];
      MapHeaders(init) + (if e.0.Some? && e.1.Some? then [(e.0.value, e.1.value)] else [])
  }

  /** One more map entry adds at most its own header. */
  lemma MapHeadersStep(init: seq<(Option<string>, Option<string>)>, e: (Option<string>, Option<string>))
    ensures MapHeaders(init + [e]) == MapHeaders(init) + (if e.0.Some? && e.1.Some? then [(e.0.value, e.1.value)] else [])
  {
    assert (init + [e])[..|init|] == init;
  }

  /** The buffer after entry `j`: the one before it, and that entry's
      header if it has one. */
  lemma MapHeadersExtend(base: seq<Pair>, es: seq<(Option<string>, Option<string>)>, j: nat)
    requires j < |es|
    ensures base + MapHeaders(es[..j + 1])
         == base + MapHeaders(es[..j]) + (if es[j].0.Some? && es[j].1.Some? then [(es[j].0.value, es[j].1.value)] else [])
  {
    assert es[..j + 1] == es[..j] + [es[j]];
    MapHeadersStep(es[..j], es[j]);
  }

  /** The headers processParameterHeaders adds for the first `n`
      parameters, and the exception that stopped it, if any. */
  datatype HeaderScan = HeaderScan(added: seq<Pair>, failure: Option<Fault>)

  function ParamHeaders(params: seq<ParamRole>, args: seq<Arg>, n: nat): (r: HeaderScan)
    requires n <= |params| == |args|
    ensures r.failure.Some? ==> r.failure.value == HeadersNotMap
    decreases n
  {
    if n == 0 then HeaderScan([], None)
    else
      var prev := ParamHeaders(params, args, n - 1);
      if prev.failure.Some? || !params[n - 1].HeadersParam? then prev
      else match args[n - 1]
        case MapArg(es) => HeaderScan(prev.added + MapHeaders(es), None)
        case _ => HeaderScan(prev.added, Some(HeadersNotMap))
  }

  /** @Headers fails exactly when one of its arguments is not a Map (null
      included), and only the entries of those maps are ever added. */
  lemma ParamHeadersMeaning(params: seq<ParamRole>, args: seq<Arg>, n: nat)
    requires n <= |params| == |args|
    ensures ParamHeaders(params, args, n).failure.None? <==>
      forall i :: 0 <= i < n && params[i].HeadersParam? ==> args[i].MapArg?
    ensures forall h :: h in ParamHeaders(params, args, n).added ==>
      exists i :: 0 <= i < n && params[i].HeadersParam? && args[i].MapArg? && (Some(h.0), Some(h.1)) in args[i].entries
  {
    ParamHeadersFailure(params, args, n);
    ParamHeadersProvenance(params, args, n);
  }

  lemma {:induction false} ParamHeadersFailure(params: seq<ParamRole>, args: seq<Arg>, n: nat)
    requires n <= |params| == |args|
    ensures ParamHeaders(params, args, n).failure.None? <==>
      forall i :: 0 <= i < n && params[i].HeadersParam? ==> args[i].MapArg?
    decreases n
  {
    if n > 0 {
      ParamHeadersFailure(params, args, n - 1);
    }
  }

  lemma {:induction false} ParamHeadersProvenance(params: seq<ParamRole>, args: seq<Arg>, n: nat)
    requires n <= |params| == |args|
    ensures forall h :: h in ParamHeaders(params, args, n).added ==>
      exists i :: 0 <= i < n && params[i].HeadersParam? && args[i].MapArg? && (Some(h.0), Some(h.1)) in args[i].entries
    decreases n
  {
    if n > 0 {
      ParamHeadersProvenance(params, args, n - 1);
      var prev := ParamHeaders(params, args, n - 1);
      var cur := ParamHeaders(params, args, n);
      if prev.failure.None? && params[n - 1].HeadersParam? && args[n - 1].MapArg? {
        var es := args[n - 1].entries;
        assert cur.added == prev.added + MapHeaders(es);
        forall h | h in cur.added
          ensures exists i :: 0 <= i < n && params[i].HeadersParam? && args[i].MapArg? && (Some(h.0), Some(h.1)) in args[i].entries
        {
          if h in MapHeaders(es) {
            assert (Some(h.0), Some(h.1)) in args[n - 1].entries;
          } else {
            assert h in prev.added;
          }
        }
      } else {
        assert cur.added == prev.added;
      }
    }
  }

  /** One more parameter of processParameterHeaders, from a state with no
      failure yet. */
  lemma ParamHeadersExtend(base: seq<Pair>, params: seq<ParamRole>, args: seq<Arg>, i: nat)
    requires i < |params| == |args| && ParamHeaders(params, args, i).failure.None?
    ensures !params[i].HeadersParam? ==> ParamHeaders(params, args, i + 1) == ParamHeaders(params, args, i)
    ensures params[i].HeadersParam? && !args[i].MapArg? ==> ParamHeaders(params, args, i + 1).failure.Some?
    ensures params[i].HeadersParam? && args[i].MapArg? ==>
      && ParamHeaders(params, args, i + 1).failure.None?
      && base + ParamHeaders(params, args, i + 1).added
         == base + ParamHeaders(params, args, i).added + MapHeaders(args[i].entries)
  {
  }

  lemma {:induction false} HeaderFailurePersists(params: seq<ParamRole>, args: seq<Arg>, k: nat, n: nat)
    requires k <= n <= |params| == |args|
    requires ParamHeaders(params, args, k).failure.Some?
    ensures ParamHeaders(params, args, n) == ParamHeaders(params, args, k)
    decreases n
  {
    if n > k {
      HeaderFailurePersists(params, args, k, n - 1);
    }
  }

  /** processMethodHeaders: the method's @Header annotations, in order. */
  method ProcessMethodHeaders(req: HttpRequest, declared: seq<Pair>)
    modifies req
    ensures req.headers == old(req.headers) + declared
    ensures req.url == old(req.url) && req.query == old(req.query) && req.entity == old(req.entity)
  {
    var k := 0;
    while k < |declared|
      invariant 0 <= k <= |declared|
      invariant req.headers == old(req.headers) + declared[..k]
      invariant req.url == old(req.url) && req.query == old(req.query) && req.entity == old(req.entity)
    {
      req.AddHeader(declared[k].0, declared[k].1);
      assert declared[..k + 1] == declared[..k] + [declared[k]];
      k := k + 1;
    }
    assert declared[..k] == declared;
  }

  /** addHeadersFromMap: one addHeader per entry with a non-null key and
      value. */
  method AddHeadersFromMap(req: HttpRequest, es: seq<(Option<string>, Option<string>)>)
    modifies req
    ensures req.headers == old(req.headers) + MapHeaders(es)
    ensures req.url == old(req.url) && req.query == old(req.query) && req.entity == old(req.entity)
  {
    var j := 0;
    while j < |es|
      invariant 0 <= j <= |es|
      invariant req.headers == old(req.headers) + MapHeaders(es[..j])
      invariant req.url == old(req.url) && req.query == old(req.query) && req.entity == old(req.entity)
    {
      MapHeadersExtend(old(req.headers), es, j);
      if es[j].0.Some? && es[j].1.Some? {
        req.AddHeader(es[j].0.value, es[j].1.value);
      }
      j := j + 1;
    }
    assert es[..j] == es;
  }

  /** processParameterHeaders: every @Headers argument must be a Map, whose
      entries are then added. */
  method ProcessParameterHeaders(req: HttpRequest, params: seq<ParamRole>, args: seq<Arg>)
    returns (r: Result<(), Fault>)
    requires |params| == |args|
    modifies req
    ensures req.headers == old(req.headers) + ParamHeaders(params, args, |params|).added
    ensures r.Failure? <==> ParamHeaders(params, args, |params|).failure.Some?
    ensures r.Failure? ==> r.error == HeadersNotMap
    ensures req.url == old(req.url) && req.query == old(req.query) && req.entity == old(req.entity)
  {
    var i := 0;
    while i < |params|
      invariant 0 <= i <= |params|
      invariant ParamHeaders(params, args, i).failure.None?
      invariant req.headers == old(req.headers) + ParamHeaders(params, args, i).added
      invariant req.url == old(req.url) && req.query == old(req.query) && req.entity == old(req.entity)
    {
      ParamHeadersExtend(old(req.headers), params, args, i);
      if params[i].HeadersParam? {
        if !args[i].MapArg? {
          HeaderFailurePersists(params, args, i + 1, |params|);
          return Failure(HeadersNotMap);
        }
        AddHeadersFromMap(req, args[i].entries);
      }
      i := i + 1;
    }
    return Success(());
  }

  /** addHeaders: the method's @Header annotations in order, then the
      entries of each @Headers map; headers are only ever appended. */
  method AddHeaders(req: HttpRequest, declared: seq<Pair>, params: seq<ParamRole>, args: seq<Arg>)
    returns (r: Result<(), Fault>)
    requires |params| == |args|
    modifies req
    ensures req.headers == old(req.headers) + declared + ParamHeaders(params, args, |params|).added
    ensures r.Failure? <==> ParamHeaders(params, args, |params|).failure.Some?
    ensures r.Failure? ==> r.error == HeadersNotMap
    ensures req.url == old(req.url) && req.query == old(req.query) && req.entity == old(req.entity)
  {
    ProcessMethodHeaders(req, declared);
    r := ProcessParameterHeaders(req, params, args);
  }

  // ----------------------------------------------------- authentication

  const Authorization := "Authorization"

  /** applyBasicAuth (section 2 of RFC 7617): "Basic " and the Base64 of
      the UTF-8 bytes of user ":" password. */
  function BasicHeader(b: BasicAuth): Pair {
    (Authorization, "Basic " + Base64.Encode(Base64.Utf8Encode(b.username + ":" + b.password)))
  }

  /** The Basic header carries the credentials losslessly: its value after
      "Basic " decodes (Base64, then UTF-8) back to user ":" password. */
  lemma BasicHeaderDecodes(b: BasicAuth)
    ensures BasicHeader(b).0 == Authorization
    ensures |BasicHeader(b).1| >= 6 && BasicHeader(b).1[..6] == "Basic "
    ensures var bytes := Base64.Decode(BasicHeader(b).1[6..]);
      bytes.Some? && Base64.Utf8Decode(bytes.value) == Some(b.username + ":" + b.password)
  {
    var creds := b.username + ":" + b.password;
    var encoded := Base64.Encode(Base64.Utf8Encode(creds));
    assert BasicHeader(b).1[6..] == encoded;
    Base64.Base64RoundTrip(Base64.Utf8Encode(creds));
    Base64.Utf8RoundTrip(creds);
  }

  /** applyBearerToken and applyOAuth2 (section 2.1 of RFC 6750). */
  function BearerHeader(token: string): (h: Pair)
    ensures h.0 == Authorization && |h.1| >= 7 && h.1[..7] == "Bearer " && h.1[7..] == token
  {
    (Authorization, "Bearer " + token)
  }

  /** What applyAuthentication does to the request. */
  datatype AuthEffect = Unchanged | HeaderAdded(header: Pair) | QueryAdded(param: Pair) | AuthFailed(fault: Fault)

  /** The effect of an authentication plan; `fetch` is the token manager's
      answer for an OAuth2 declaration. A missing details annotation is
      dereferenced and throws NullPointerException. */
  function AuthEffectOf(plan: AuthPlan, fetch: OAuth2 -> Result<string, Fault>): AuthEffect {
    match plan
    case NoAuth => Unchanged
    case MissingDetails(_) => AuthFailed(NullDereference)
    case Apply(BasicCredentials(b)) => HeaderAdded(BasicHeader(b))
    case Apply(ApiKeyCredentials(k)) => if k.inHeader then HeaderAdded((k.name, k.value)) else QueryAdded((k.name, k.value))
    case Apply(BearerCredentials(t)) => HeaderAdded(BearerHeader(t.token))
    case Apply(OAuth2Credentials(c)) =>
      match fetch(c)
      case Success(token) => HeaderAdded(BearerHeader(token))
      case Failure(f) => AuthFailed(f)
  }

  /** The request after the effect. */
  function Authorize(w: WireRequest, e: AuthEffect): (r: Result<WireRequest, Fault>)
    ensures r.Success? ==> r.value.verb == w.verb && r.value.url == w.url && r.value.body == w.body
    ensures r.Success? ==> w.headers <= r.value.headers && w.query <= r.value.query
    ensures r.Success? ==> |r.value.headers| + |r.value.query| <= |w.headers| + |w.query| + 1
    ensures r.Failure? <==> e.AuthFailed?
  {
    match e
    case Unchanged => Success(w)
    case HeaderAdded(h) => Success(w.(headers := w.headers + [h]))
    case QueryAdded(q) => Success(w.(query := w.query + [q]))
    case AuthFailed(f) => Failure(f)
  }

  /** Each scheme adds what its standard prescribes, and nothing else:
      no declaration leaves the request as it is; Basic, Bearer and OAuth2
      add exactly one Authorization header; an API key goes to the headers
      or, after every @Query pair, to the query. */
  lemma AuthorizeBySchemes(w: WireRequest, plan: AuthPlan, fetch: OAuth2 -> Result<string, Fault>)
    ensures plan.NoAuth? ==> Authorize(w, AuthEffectOf(plan, fetch)) == Success(w)
    ensures plan.MissingDetails? ==> Authorize(w, AuthEffectOf(plan, fetch)) == Failure(NullDereference)
    ensures plan.Apply? && plan.credentials.BasicCredentials? ==>
      Authorize(w, AuthEffectOf(plan, fetch)) == Success(w.(headers := w.headers + [BasicHeader(plan.credentials.basic)]))
    ensures plan.Apply? && plan.credentials.BearerCredentials? ==>
      Authorize(w, AuthEffectOf(plan, fetch)) == Success(w.(headers := w.headers + [(Authorization, "Bearer " + plan.credentials.bearer.token)]))
    ensures plan.Apply? && plan.credentials.OAuth2Credentials? && fetch(plan.credentials.oauth2).Success? ==>
      Authorize(w, AuthEffectOf(plan, fetch)) == Success(w.(headers := w.headers + [(Authorization, "Bearer " + fetch(plan.credentials.oauth2).value)]))
    ensures plan.Apply? && plan.credentials.OAuth2Credentials? && fetch(plan.credentials.oauth2).Failure? ==>
      Authorize(w, AuthEffectOf(plan, fetch)) == Failure(fetch(plan.credentials.oauth2).error)
    ensures plan.Apply? && plan.credentials.ApiKeyCredentials? && plan.credentials.apiKey.inHeader ==>
      var k := plan.credentials.apiKey;
      Authorize(w, AuthEffectOf(plan, fetch)) == Success(w.(headers := w.headers + [(k.name, k.value)]))
    ensures plan.Apply? && plan.credentials.ApiKeyCredentials? && !plan.credentials.apiKey.inHeader ==>
      var k := plan.credentials.apiKey;
      Authorize(w, AuthEffectOf(plan, fetch)) == Success(w.(query := w.query + [(k.name, k.value)]))
  {
  }

  /** applyAuthentication, with the OAuth2 token from the token manager. */
  method ApplyAuthentication(req: HttpRequest, plan: AuthPlan, tm: TokenManager, now: int,
                             endpoint: TokenRequest -> TokenReply, parse: string -> Option<Json>)
    returns (r: Result<(), Fault>)
    requires tm.Valid()
    modifies req, tm
    ensures tm.Valid()
    ensures var cache0 := old(tm.cache);
      var fetch := (c: OAuth2) => GetTokenSpec(cache0, c, now, endpoint, parse).result;
      var after := Authorize(old(req.Snapshot()), AuthEffectOf(plan, fetch));
      && (after.Success? ==> r == Success(()) && req.Snapshot() == after.value)
      && (after.Failure? ==> r == Failure(after.error))
    ensures plan.Apply? && plan.credentials.OAuth2Credentials? ==>
      tm.cache == GetTokenSpec(old(tm.cache), plan.credentials.oauth2, now, endpoint, parse).cache
    ensures !(plan.Apply? && plan.credentials.OAuth2Credentials?) ==> tm.cache == old(tm.cache)
  {
    r := Success(());
    match plan
    case NoAuth =>
    case MissingDetails(_) =>
      r := Failure(NullDereference);
    case Apply(BasicCredentials(b)) =>
      var h := BasicHeader(b);
      req.AddHeader(h.0, h.1);
    case Apply(ApiKeyCredentials(k)) =>
      if k.inHeader {
        req.AddHeader(k.name, k.value);
      } else {
        req.AddQueryParameter(k.name, k.value);
      }
    case Apply(BearerCredentials(t)) =>
      req.AddHeader(Authorization, "Bearer " + t.token);
    case Apply(OAuth2Credentials(c)) =>
      var token := tm.GetToken(c, now, endpoint, parse);
      if token.Failure? {
        r := Failure(token.error);
      } else {
        req.AddHeader(Authorization, "Bearer " + token.value);
      }
  }
}
