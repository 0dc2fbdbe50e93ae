/** TokenManager: the OAuth2 access-token cache. A token is fetched from the
    configured token endpoint with the client-credentials grant (section 4.4.2
    of RFC 6749), or with the refresh-token grant (section 6 of RFC 6749) when
    the expired entry holds a refresh token; it is cached per client and token
    URL until it expires. */
module Tokens {
  import opened Wrappers
  import opened Text
  import opened Http
  import opened Json
  import opened Errors
  import opened Descriptor

  /** TokenData: access token, optional refresh token, expiration instant in
      epoch seconds. */
  datatype TokenData = TokenData(accessToken: string, refreshToken: Option<string>, expiration: int)

  /** The record's invariant: the access token is neither null nor empty. */
  predicate ValidToken(t: TokenData) {
    |t.accessToken| > 0
  }

  const InvalidTokenMessage := "Invalid token data"
  const TokenRequestFailed := "OAuth2 token request failed"

  /** The TokenData constructor: it rejects a null or empty access token. */
  function NewTokenData(accessToken: Option<string>, refreshToken: Option<string>, expiration: int): (r: Result<TokenData, Fault>)
    ensures r.Success? <==> accessToken.Some? && accessToken.value != ""
    ensures r.Success? ==> ValidToken(r.value) && r.value.accessToken == accessToken.value
    ensures r.Success? ==> r.value.refreshToken == refreshToken && r.value.expiration == expiration
    ensures r.Failure? ==> r.error == Fault(IllegalArgumentException, Some(InvalidTokenMessage))
  {
    if accessToken.None? || accessToken.value == "" then
      Failure(Fault(IllegalArgumentException, Some(InvalidTokenMessage)))
    else
      Success(TokenData(accessToken.value, refreshToken, expiration))
  }

  /** buildCacheKey: client id, "@", token URL. */
  function CacheKey(c: OAuth2): string {
    c.clientId + "@" + c.tokenUrl
  }

  /** Two configurations whose client ids contain no '@' share a cache entry
      only when client id and token URL both agree. */
  lemma CacheKeySeparatesClients(c1: OAuth2, c2: OAuth2)
    requires '@' !in c1.clientId && '@' !in c2.clientId
    ensures CacheKey(c1) == CacheKey(c2) <==> c1.clientId == c2.clientId && c1.tokenUrl == c2.tokenUrl
  {
    if CacheKey(c1) == CacheKey(c2) {
      var k := CacheKey(c1);
      var n1, n2 := |c1.clientId|, |c2.clientId|;
      assert k[n1] == '@' && k[n2] == '@';
      assert n1 == n2;
      assert c1.clientId == k[..n1] == c2.clientId;
      assert c1.tokenUrl == k[n1 + 1..] == c2.tokenUrl;
    }
  }

  /** With an '@' in a client id, two different configurations can share one
      cache entry, and so one token. */
  lemma CacheKeyCollision()
    ensures CacheKey(OAuth2("app@corp", "s1", "idp/token")) == CacheKey(OAuth2("app", "s2", "corp@idp/token"))
  {
  }

  /** isTokenExpired: the current instant is strictly after the expiration. */
  predicate IsExpired(t: TokenData, now: int) {
    now > t.expiration
  }

  /** The value of the first field called `name` in a form, if any. */
  function FormValue(form: seq<Pair>, name: string): Option<string> {
    if form == [] then None
    else if form[0].0 == name then Some(form[0].1)
    else FormValue(form[1..], name)
  }

  /** buildTokenRequestBody: client_id and client_secret, then the grant. */
  function TokenRequestForm(c: OAuth2, previous: Option<TokenData>): (form: seq<Pair>)
    ensures |form| >= 3 && form[0] == ("client_id", c.clientId) && form[1] == ("client_secret", c.clientSecret)
  {
    [("client_id", c.clientId), ("client_secret", c.clientSecret)]
    + if previous.Some? && previous.value.refreshToken.Some? then
        [("grant_type", "refresh_token"), ("refresh_token", previous.value.refreshToken.value)]
      else
        [("grant_type", "client_credentials")]
  }

  /** The grant is refresh_token, with the refresh token in the form, exactly
      when the previous entry carried a refresh token; otherwise it is
      client_credentials and no refresh_token field is sent. */
  lemma TokenRequestFormGrant(c: OAuth2, previous: Option<TokenData>)
    ensures var form := TokenRequestForm(c, previous);
      && FormValue(form, "client_id") == Some(c.clientId)
      && FormValue(form, "grant_type") ==
           Some(if previous.Some? && previous.value.refreshToken.Some? then "refresh_token" else "client_credentials")
      && FormValue(form, "refresh_token") ==
           (if previous.Some? then previous.value.refreshToken else None)
  {
    var form := TokenRequestForm(c, previous);
    var tail := form[2..];
    assert form[1..][1..] == tail;
    SkipField(form, "grant_type");
    SkipField(form[1..], "grant_type");
    SkipField(form, "refresh_token");
    SkipField(form[1..], "refresh_token");
    assert tail[0] == ("grant_type", if previous.Some? && previous.value.refreshToken.Some? then "refresh_token" else "client_credentials");
    SkipField(tail, "refresh_token");
    if previous.Some? && previous.value.refreshToken.Some? {
      assert tail[1..] == [("refresh_token", previous.value.refreshToken.value)];
    } else {
      assert tail[1..] == [];
    }
  }

  /** A field with another name does not answer the lookup. */
  lemma SkipField(form: seq<Pair>, name: string)
    requires |form| > 0 && form[0].0 != name
    ensures FormValue(form, name) == FormValue(form[1..], name)
  {
  }

  /** Java's int arithmetic: the result reduced into [-2^31, 2^31). */
  function Wrap32(x: int): (r: int)
    ensures -0x8000_0000 <= r < 0x8000_0000
    ensures -0x8000_0000 <= x < 0x8000_0000 ==> r == x
    ensures (r - x) % 0x1_0000_0000 == 0
  {
    (x + 0x8000_0000) % 0x1_0000_0000 - 0x8000_0000
  }

  /** `(String) map.get(name)`: a missing key or JSON null is null, a string
      node is the string, anything else fails the cast. */
  function CastString(fields: map<string, Json>, name: string): (r: Result<Option<string>, Fault>)
    ensures r.Success? && r.value.Some? <==> name in fields && fields[name].JString?
    ensures r.Success? && r.value.Some? ==> r.value.value == fields[name].s
    ensures r.Success? && r.value.None? <==> name !in fields || fields[name] == JNull
    ensures r.Failure? ==> r.error == Fault(ClassCastException, None)
  {
    if name !in fields then Success(None)
    else match fields[name]
      case JNull => Success(None)
      case JString(s) => Success(Some(s))
      case _ => Failure(Fault(ClassCastException, None))
  }

  /** `(Integer) map.getOrDefault("expires_in", 3600)` unboxed to int: a
      missing key is 3600; JSON null fails the unboxing; Jackson gives an
      Integer only for an integral number in int range. */
  function ExpiresIn(fields: map<string, Json>): (r: Result<int, Fault>)
    ensures "expires_in" !in fields ==> r == Success(3600)
    ensures "expires_in" in fields && fields["expires_in"].JInt? &&
            -0x8000_0000 <= fields["expires_in"].i < 0x8000_0000 ==>
      r == Success(fields["expires_in"].i)
    ensures "expires_in" in fields && fields["expires_in"] == JNull ==> r == Failure(NullDereference)
    ensures r.Success? ==> -0x8000_0000 <= r.value < 0x8000_0000
    ensures r.Success? ==> "expires_in" !in fields || fields["expires_in"] == JInt(r.value)
  {
    if "expires_in" !in fields then Success(3600)
    else match fields["expires_in"]
      case JNull => Failure(NullDereference)
      case JInt(i) =>
        if -0x8000_0000 <= i < 0x8000_0000 then Success(i) else Failure(Fault(ClassCastException, None))
      case _ => Failure(Fault(ClassCastException, None))
  }

  /** Whether the reply's refresh_token survives the String cast: absent,
      JSON null or a string. */
  predicate RefreshReadable(fields: map<string, Json>) {
    "refresh_token" !in fields || fields["refresh_token"] == JNull || fields["refresh_token"].JString?
  }

  /** The refresh token the reply carries: the string when there is one,
      null when the field is absent or JSON null. */
  function RefreshField(fields: map<string, Json>): Option<string> {
    if "refresh_token" in fields && fields["refresh_token"].JString? then Some(fields["refresh_token"].s) else None
  }

  const DeserializationFailed := Fault(FrameworkException, Some("JSON deserialization failed"))

  /** parseTokenResponse. `parse` is Jackson's reading of the body as a JSON
      tree (None: not JSON). Reading into a Map fails for any top-level value
      but an object or null, and JsonUtils turns that failure into a
      FrameworkException; a JSON null gives a null map whose use throws
      NullPointerException. The casts run in source order, then the int
      subtraction, then the TokenData constructor. */
  function ParseTokenResponse(body: string, parse: string -> Option<Json>, now: int): (r: Result<TokenData, Fault>)
    ensures r.Success? ==> ValidToken(r.value)
    ensures parse(body).None? ==> r == Failure(DeserializationFailed)
    ensures parse(body) == Some(JNull) ==> r == Failure(NullDereference)
  {
    match parse(body)
    case None => Failure(DeserializationFailed)
    case Some(JNull) => Failure(NullDereference)
    case Some(JObject(fields)) =>
      (match CastString(fields, "access_token")
       case Failure(f) => Failure(f)
       case Success(access) =>
         match CastString(fields, "refresh_token")
         case Failure(f) => Failure(f)
         case Success(refresh) =>
           match ExpiresIn(fields)
           case Failure(f) => Failure(f)
           case Success(expiresIn) => NewTokenData(access, refresh, now + Wrap32(expiresIn - 60)))
    case Some(_) => Failure(DeserializationFailed)
  }

  /** Every token parsed comes from a JSON object reply: its access token
      is the reply's access_token, its refresh token the reply's
      refresh_token, and its expiration now plus expires_in - 60 in int
      arithmetic. */
  lemma ParsedFromReply(body: string, parse: string -> Option<Json>, now: int)
    ensures var r := ParseTokenResponse(body, parse, now);
      r.Success? ==>
        && parse(body).Some? && parse(body).value.JObject?
        && var fields := parse(body).value.fields;
        && "access_token" in fields && fields["access_token"] == JString(r.value.accessToken)
        && r.value.refreshToken == RefreshField(fields)
        && ExpiresIn(fields).Success? && r.value.expiration == now + Wrap32(ExpiresIn(fields).value - 60)
  {
  }

  /** A reply carrying an access token and an int-range expires_in yields a
      token that expires expires_in - 60 seconds from now, the subtraction
      in int arithmetic; without expires_in, 3540 seconds from now. The
      refresh token stored is the one the reply carries, which the next
      refresh sends back; a refresh_token that is neither a string nor null
      fails the cast. */
  lemma ParsedExpiration(body: string, parse: string -> Option<Json>, now: int, fields: map<string, Json>, access: string)
    requires parse(body) == Some(JObject(fields))
    requires "access_token" in fields && fields["access_token"] == JString(access) && access != ""
    ensures RefreshReadable(fields) && "expires_in" !in fields ==>
      ParseTokenResponse(body, parse, now) == Success(TokenData(access, RefreshField(fields), now + 3540))
    ensures RefreshReadable(fields) && "expires_in" in fields && fields["expires_in"].JInt? &&
            -0x8000_0000 <= fields["expires_in"].i < 0x8000_0000 ==>
      ParseTokenResponse(body, parse, now)
        == Success(TokenData(access, RefreshField(fields), now + Wrap32(fields["expires_in"].i - 60)))
    ensures RefreshReadable(fields) && "expires_in" in fields && fields["expires_in"].JInt? &&
            -0x8000_0000 + 60 <= fields["expires_in"].i < 0x8000_0000 ==>
      ParseTokenResponse(body, parse, now)
        == Success(TokenData(access, RefreshField(fields), now + fields["expires_in"].i - 60))
    ensures !RefreshReadable(fields) ==> ParseTokenResponse(body, parse, now) == Failure(Fault(ClassCastException, None))
  {
  }

  /** The POST sent to the token endpoint: its URL and its form. */
  datatype TokenRequest = TokenRequest(url: string, form: seq<Pair>)

  /** What the token endpoint call produced: an IOException, or a response
      with its status code and body text. */
  datatype TokenReply = IoFailure(message: Option<string>) | Reply(code: int, body: string)

  /** refreshToken, given the endpoint's reply: a non-2xx status or an
      IOException is a FrameworkException; a 2xx body is parsed. */
  function RefreshToken(reply: TokenReply, parse: string -> Option<Json>, now: int): (r: Result<TokenData, Fault>)
    ensures r.Success? ==> reply.Reply? && 200 <= reply.code < 300 && ValidToken(r.value)
    ensures reply.Reply? && !(200 <= reply.code < 300) ==>
      r == Failure(Fault(FrameworkException, Some(TokenRequestFailed + ": " + IntToString(reply.code))))
    ensures reply.IoFailure? ==> r == Failure(Fault(FrameworkException, Some(TokenRequestFailed)))
  {
    match reply
    case IoFailure(_) => Failure(Fault(FrameworkException, Some(TokenRequestFailed)))
    case Reply(code, body) =>
      if !(200 <= code < 300) then
        Failure(Fault(FrameworkException, Some(TokenRequestFailed + ": " + IntToString(code))))
      else
        ParseTokenResponse(body, parse, now)
  }

  /** One getToken call: its result, the cache after it, and the token
      request it sent, if any. */
  datatype TokenStep = TokenStep(result: Result<string, Fault>, cache: map<string, TokenData>, sent: Option<TokenRequest>)

  /** The specification of getToken. `endpoint` answers a token request;
      `now` is the clock reading. */
  function GetTokenSpec(cache: map<string, TokenData>, c: OAuth2, now: int,
                        endpoint: TokenRequest -> TokenReply, parse: string -> Option<Json>): TokenStep
  {
    var key := CacheKey(c);
    if key in cache && !IsExpired(cache[key], now) then
      TokenStep(Success(cache[key].accessToken), cache, None)
    else
      var previous := if key in cache then Some(cache[key]) else None;
      var request := TokenRequest(c.tokenUrl, TokenRequestForm(c, previous));
      match RefreshToken(endpoint(request), parse, now)
      case Success(t) => TokenStep(Success(t.accessToken), cache[key := t], Some(request))
      case Failure(f) => TokenStep(Failure(f), cache, Some(request))
  }

  /** A present, unexpired entry is returned as is: no request, no change. */
  lemma CacheHit(cache: map<string, TokenData>, c: OAuth2, now: int,
                 endpoint: TokenRequest -> TokenReply, parse: string -> Option<Json>)
    requires CacheKey(c) in cache && !IsExpired(cache[CacheKey(c)], now)
    ensures var step := GetTokenSpec(cache, c, now, endpoint, parse);
      step.sent.None? && step.cache == cache && step.result == Success(cache[CacheKey(c)].accessToken)
  {
  }

  /** A missing or expired entry sends exactly one request to the configured
      token URL, with the refresh grant exactly when the old entry had a
      refresh token; on success the new token is stored under the key and
      returned. */
  lemma CacheMiss(cache: map<string, TokenData>, c: OAuth2, now: int,
                  endpoint: TokenRequest -> TokenReply, parse: string -> Option<Json>)
    requires CacheKey(c) !in cache || IsExpired(cache[CacheKey(c)], now)
    ensures var step := GetTokenSpec(cache, c, now, endpoint, parse);
      var key := CacheKey(c);
      && step.sent.Some? && step.sent.value.url == c.tokenUrl
      && FormValue(step.sent.value.form, "grant_type") ==
           Some(if key in cache && cache[key].refreshToken.Some? then "refresh_token" else "client_credentials")
      && (step.result.Success? ==>
            key in step.cache && step.cache[key].accessToken == step.result.value
            && step.cache[key] == RefreshToken(endpoint(step.sent.value), parse, now).value)
  {
    var key := CacheKey(c);
    TokenRequestFormGrant(c, if key in cache then Some(cache[key]) else None);
  }

  /** A failed fetch changes no cache entry, for this key or any other. */
  lemma FailureLeavesCache(cache: map<string, TokenData>, c: OAuth2, now: int,
                           endpoint: TokenRequest -> TokenReply, parse: string -> Option<Json>)
    ensures var step := GetTokenSpec(cache, c, now, endpoint, parse);
      step.result.Failure? ==> step.cache == cache
  {
  }

  /** Entries under other keys are never touched, and the key itself is
      only ever added or replaced. */
  lemma OtherKeysUnchanged(cache: map<string, TokenData>, c: OAuth2, now: int,
                           endpoint: TokenRequest -> TokenReply, parse: string -> Option<Json>)
    ensures var step := GetTokenSpec(cache, c, now, endpoint, parse);
      && step.cache.Keys == cache.Keys + (if step.result.Success? then {CacheKey(c)} else {})
      && forall k :: k in cache && k != CacheKey(c) ==> step.cache[k] == cache[k]
  {
  }

  /** Every cached token, and every token returned, is non-empty. */
  lemma CachedTokensStayValid(cache: map<string, TokenData>, c: OAuth2, now: int,
                              endpoint: TokenRequest -> TokenReply, parse: string -> Option<Json>)
    requires forall k :: k in cache ==> ValidToken(cache[k])
    ensures var step := GetTokenSpec(cache, c, now, endpoint, parse);
      && (forall k :: k in step.cache ==> ValidToken(step.cache[k]))
      && (step.result.Success? ==> step.result.value != "")
  {
  }

  /** A token just fetched is served from the cache, without a request, to
      every call up to its expiration. */
  lemma FetchedThenServed(cache: map<string, TokenData>, c: OAuth2, now: int, later: int,
                          endpoint: TokenRequest -> TokenReply, endpoint2: TokenRequest -> TokenReply,
                          parse: string -> Option<Json>)
    requires GetTokenSpec(cache, c, now, endpoint, parse).result.Success?
    requires later <= GetTokenSpec(cache, c, now, endpoint, parse).cache[CacheKey(c)].expiration
    ensures var first := GetTokenSpec(cache, c, now, endpoint, parse);
      var second := GetTokenSpec(first.cache, c, later, endpoint2, parse);
      second.sent.None? && second.result == first.result && second.cache == first.cache
  {
  }

  /** The process-wide cache behind the static getToken. The class keeps the
      map and, as ghost state, every request it has sent. */
  class TokenManager {
    var cache: map<string, TokenData>
    ghost var sent: seq<TokenRequest>

    /** No cached token is null or empty. */
    predicate Valid()
      reads this
    {
      forall k :: k in cache ==> ValidToken(cache[k])
    }

    constructor()
      ensures Valid() && cache == map[] && sent == []
    {
      cache := map[];
      sent := [];
    }

    /** getToken: serve the cached entry if present and unexpired; otherwise
        refresh it, store it, and return its access token. The endpoint is
        asked at most once. */
    method GetToken(c: OAuth2, now: int, endpoint: TokenRequest -> TokenReply, parse: string -> Option<Json>)
      returns (r: Result<string, Fault>)
      requires Valid()
      modifies this
      ensures Valid()
      ensures var step := GetTokenSpec(old(cache), c, now, endpoint, parse);
        && r == step.result && cache == step.cache
        && sent == old(sent) + (if step.sent.Some? then [step.sent.value] else [])
    {
      var key := CacheKey(c);
      var tokenData: Option<TokenData> := if key in cache then Some(cache[key]) else None;
      if tokenData.None? || IsExpired(tokenData.value, now) {
        var request := TokenRequest(c.tokenUrl, TokenRequestForm(c, tokenData));
        sent := sent + [request];
        var fetched := RefreshToken(endpoint(request), parse, now);
        if fetched.Failure? {
          return Failure(fetched.error);
        }
        tokenData := Some(fetched.value);
        cache := cache[key := fetched.value];
      }
      return Success(tokenData.value.accessToken);
    }
  }
}
