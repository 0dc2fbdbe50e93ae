/** The metadata the handlers read from annotations by reflection, written out
    as plain values: the verb annotations of an interface method, the role of
    each parameter, the static headers and the authentication declarations at
    method and interface level; and the arguments of one call. */
module Descriptor {
  import opened Wrappers
  import opened Http
  import opened Errors

  // ------------------------------------------------------------ arguments

  /** A call argument as the builder sees it: null, an object with its
      toString(), or a java.util.Map whose entries (key and value as their
      toString(), or null) are listed in the map's iteration order. */
  datatype Arg = NullArg | Obj(text: string) | MapArg(entries: seq<(Option<string>, Option<string>)>)

  /** AbstractMap.toString(): "{k1=v1, k2=v2}", null shown as "null". */
  function MapText(entries: seq<(Option<string>, Option<string>)>): string {
    "{" + Entries(entries) + "}"
  }

  function Entries(entries: seq<(Option<string>, Option<string>)>): string {
    if entries == [] then ""
    else
      var e := entries[0];
      var one := Text.NullableText(e.0) + "=" + Text.NullableText(e.1);
      if |entries| == 1 then one else one + ", " + Entries(entries[1..])
  }

  /** args[i].toString(): None when the argument is null, which makes the
      call throw NullPointerException. */
  function ArgText(a: Arg): (r: Option<string>)
    ensures r.None? <==> a.NullArg?
  {
    match a
    case NullArg => None
    case Obj(t) => Some(t)
    case MapArg(es) => Some(MapText(es))
  }

  // ---------------------------------------------------------------- verbs

  /** The value (path template) of each HTTP-method annotation present on a
      method: @GET, @POST, @PUT, @DELETE and @OPTION. */
  datatype VerbAnnotations = VerbAnnotations(
    get: Option<string>, post: Option<string>, put: Option<string>,
    delete: Option<string>, option: Option<string>)

  /** The annotation that stands for a verb. */
  function Annotated(v: VerbAnnotations, verb: Verb): Option<string> {
    match verb
    case GET => v.get
    case POST => v.post
    case PUT => v.put
    case DELETE => v.delete
    case OPTIONS => v.option
  }

  /** The position of a verb in the order getHttpMethodInfo tries them. */
  function Rank(verb: Verb): nat {
    match verb
    case GET => 0
    case POST => 1
    case PUT => 2
    case DELETE => 3
    case OPTIONS => 4
  }

  /** HttpMethodInfo: the chosen verb and its path template. */
  datatype MethodInfo = MethodInfo(verb: Verb, path: string)

  const NoVerbPrefix := "No HTTP method annotation found on method: "

  /** getHttpMethodInfo: the first verb annotation present, in the order
      GET, POST, PUT, DELETE, OPTION, with its path; none present is an
      IllegalArgumentException naming the method. */
  function GetHttpMethodInfo(methodName: string, v: VerbAnnotations): (r: Result<MethodInfo, Fault>)
    ensures r.Success? ==> Annotated(v, r.value.verb) == Some(r.value.path)
    ensures r.Success? ==> forall w: Verb :: Rank(w) < Rank(r.value.verb) ==> Annotated(v, w).None?
    ensures r.Failure? <==> forall w: Verb :: Annotated(v, w).None?
    ensures r.Failure? ==>
      r.error == Fault(IllegalArgumentException, Some(NoVerbPrefix + methodName))
  {
    if v.get.Some? then Success(MethodInfo(GET, v.get.value))
    else if v.post.Some? then Success(MethodInfo(POST, v.post.value))
    else if v.put.Some? then Success(MethodInfo(PUT, v.put.value))
    else if v.delete.Some? then Success(MethodInfo(DELETE, v.delete.value))
    else if v.option.Some? then Success(MethodInfo(OPTIONS, v.option.value))
    else
      Failure(Fault(IllegalArgumentException, Some(NoVerbPrefix + methodName)))
  }

  /** Adding annotations of later verbs never changes the verb chosen. */
  lemma FirstVerbWins(name: string, v: VerbAnnotations, w: Verb, path: string)
    requires GetHttpMethodInfo(name, v).Success?
    requires Rank(w) > Rank(GetHttpMethodInfo(name, v).value.verb)
    ensures GetHttpMethodInfo(name, With(v, w, path)) == GetHttpMethodInfo(name, v)
  {
  }

  /** `v` with the annotation of `w` set to `path`. */
  function With(v: VerbAnnotations, w: Verb, path: string): (r: VerbAnnotations)
    ensures Annotated(r, w) == Some(path)
    ensures forall u: Verb :: u != w ==> Annotated(r, u) == Annotated(v, u)
  {
    match w
    case GET => v.(get := Some(path))
    case POST => v.(post := Some(path))
    case PUT => v.(put := Some(path))
    case DELETE => v.(delete := Some(path))
    case OPTIONS => v.(option := Some(path))
  }

  // ----------------------------------------------------------- parameters

  /** The annotation on a parameter: @Path(name), @Query(name), @Headers,
      @Body, or none of them. */
  datatype ParamRole = PathParam(name: string) | QueryParam(name: string) | HeadersParam | BodyParam | NoRole

  // ------------------------------------------------------- authentication

  /** The schemes @Authenticated selects among. */
  datatype AuthType = BASIC | API_KEY | BEARER | OAUTH2

  datatype BasicAuth = BasicAuth(username: string, password: string)

  /** @ApiKey; its inHeader element defaults to true. */
  datatype ApiKey = ApiKey(name: string, value: string, inHeader: bool)

  datatype BearerToken = BearerToken(token: string)

  datatype OAuth2 = OAuth2(clientId: string, clientSecret: string, tokenUrl: string)

  /** The authentication annotations present at one level (a method or the
      interface). */
  datatype AuthAnnotations = AuthAnnotations(
    authenticated: Option<AuthType>,
    basicAuth: Option<BasicAuth>,
    apiKey: Option<ApiKey>,
    bearerToken: Option<BearerToken>,
    oauth2: Option<OAuth2>)

  /** The details of one scheme. */
  datatype Credentials =
    | BasicCredentials(basic: BasicAuth)
    | ApiKeyCredentials(apiKey: ApiKey)
    | BearerCredentials(bearer: BearerToken)
    | OAuth2Credentials(oauth2: OAuth2)
  {
    function Kind(): AuthType {
      match this
      case BasicCredentials(_) => BASIC
      case ApiKeyCredentials(_) => API_KEY
      case BearerCredentials(_) => BEARER
      case OAuth2Credentials(_) => OAUTH2
    }
  }

  /** The details annotation for scheme `t` at one level, if present. */
  function Declared(a: AuthAnnotations, t: AuthType): (r: Option<Credentials>)
    ensures r.Some? ==> r.value.Kind() == t
  {
    match t
    case BASIC => if a.basicAuth.Some? then Some(BasicCredentials(a.basicAuth.value)) else None
    case API_KEY => if a.apiKey.Some? then Some(ApiKeyCredentials(a.apiKey.value)) else None
    case BEARER => if a.bearerToken.Some? then Some(BearerCredentials(a.bearerToken.value)) else None
    case OAUTH2 => if a.oauth2.Some? then Some(OAuth2Credentials(a.oauth2.value)) else None
  }

  /** What applyAuthentication will do: nothing, apply these credentials, or
      dereference a missing details annotation. */
  datatype AuthPlan = NoAuth | Apply(credentials: Credentials) | MissingDetails(scheme: AuthType)

  /** applyAuthentication's two lookups: the scheme from @Authenticated on
      the method, else on the interface; then the scheme's details, again
      method first, then interface. */
  function ResolveAuth(onMethod: AuthAnnotations, onInterface: AuthAnnotations): (p: AuthPlan)
    ensures p.NoAuth? <==> onMethod.authenticated.None? && onInterface.authenticated.None?
    ensures p.Apply? ==> p.credentials.Kind() == (if onMethod.authenticated.Some? then onMethod.authenticated.value else onInterface.authenticated.value)
    ensures p.MissingDetails? ==> Declared(onMethod, p.scheme).None? && Declared(onInterface, p.scheme).None?
  {
    var chosen := if onMethod.authenticated.Some? then onMethod.authenticated else onInterface.authenticated;
    match chosen
    case None => NoAuth
    case Some(t) =>
      match Declared(onMethod, t)
      case Some(c) => Apply(c)
      case None =>
        match Declared(onInterface, t)
        case Some(c) => Apply(c)
        case None => MissingDetails(t)
  }

  /** The method-level declaration wins: once a method names a scheme and
      carries its details, nothing on the interface changes the plan. */
  lemma MethodLevelWins(onMethod: AuthAnnotations, i1: AuthAnnotations, i2: AuthAnnotations)
    requires onMethod.authenticated.Some?
    requires Declared(onMethod, onMethod.authenticated.value).Some?
    ensures ResolveAuth(onMethod, i1) == ResolveAuth(onMethod, i2) == Apply(Declared(onMethod, onMethod.authenticated.value).value)
  {
  }

  /** With the scheme chosen at either level, the details come from the
      method when it has them and from the interface otherwise. */
  lemma DetailsFallBackToInterface(onMethod: AuthAnnotations, onInterface: AuthAnnotations, t: AuthType)
    requires (if onMethod.authenticated.Some? then onMethod.authenticated else onInterface.authenticated) == Some(t)
    ensures Declared(onMethod, t).Some? ==> ResolveAuth(onMethod, onInterface) == Apply(Declared(onMethod, t).value)
    ensures Declared(onMethod, t).None? && Declared(onInterface, t).Some? ==>
              ResolveAuth(onMethod, onInterface) == Apply(Declared(onInterface, t).value)
    ensures Declared(onMethod, t).None? && Declared(onInterface, t).None? ==>
              ResolveAuth(onMethod, onInterface) == MissingDetails(t)
  {
  }

  // ------------------------------------------------------------ endpoints

  /** One interface method: its name, verb annotations, parameter roles in
      declaration order, its @Header annotations in order, and its
      authentication annotations. */
  datatype Endpoint = Endpoint(
    name: string,
    verbs: VerbAnnotations,
    params: seq<ParamRole>,
    headers: seq<Pair>,
    auth: AuthAnnotations)

  /** The proxied interface: its name, the baseUrl element of @ApiClient
      (default "") and its authentication annotations. */
  datatype ApiInterface = ApiInterface(name: string, baseUrl: string, auth: AuthAnnotations)
}
